/**
 * A round in which a weight changes: the engine's answer for a block then depends on the tally it kept, and two nodes
 * that saw the same blocks differ in the best block.
 */
module BftUnstable {
  import opened Wrappers
  import opened WeightedSets
  import opened BlockTree
  import opened BftVotes
  import opened BftRounds
  import opened BftTallies
  import opened BftAnswers
  import opened BftFinality
  import opened BftSelection

  const TWO_BLOCK_ROUNDS := Config(2, 0, 0, 0)

  /** The only validator weighs 3, and 1 from the state of block 2 on. */
  const BEFORE := Staker(true, 3, map[1 := 3], 0)
  const AFTER := Staker(true, 1, map[1 := 1], 0)

  const B0 := Genesis(0, Header(1, true, 0, BEFORE))
  const B1 := Child(B0, 0, Header(1, true, 1, BEFORE))
  const B2 := Child(B1, 0, Header(1, true, 2, AFTER))
  const B3 := Child(B2, 0, Header(1, true, 3, AFTER))

  lemma {:induction false} Heights()
    ensures Number(B0) == 0 && Number(B1) == 1 && Number(B2) == 2 && Number(B3) == 3
    ensures Checkpoint(TWO_BLOCK_ROUNDS, 0) == Checkpoint(TWO_BLOCK_ROUNDS, 1) == 0
    ensures Checkpoint(TWO_BLOCK_ROUNDS, 2) == Checkpoint(TWO_BLOCK_ROUNDS, 3) == 2
  {
    var c := TWO_BLOCK_ROUNDS;
    MultipleStep(c, 0);
    CheckpointUnique(c, 0, 0);
    CheckpointUnique(c, 1, 0);
    CheckpointUnique(c, 2, 2);
    CheckpointUnique(c, 3, 2);
    assert Number(B1) == Number(B0) + 1 && Number(B2) == Number(B1) + 1 && Number(B3) == Number(B2) + 1;
  }

  lemma {:induction false} SumOfOne(weight: nat)
    ensures var votes: map<Address, Vote> := map[1 := Vote(true, weight)];
            Sum(votes.Keys, Weights(votes)) == weight && ComSigners(votes) == votes.Keys == {1}
  {
    var votes: map<Address, Vote> := map[1 := Vote(true, weight)];
    assert votes.Keys == {1} && ComSigners(votes) == {1};
    SumAdd({}, 1, Weights(votes));
    assert {} + {1} == {1};
  }

  /** The summary of a round with a threshold of 2 in which the validator is the only signer. */
  lemma {:induction false} OneSigner(quality: nat, checkpoint: nat, weight: nat)
    ensures var votes: map<Address, Vote> := map[1 := Vote(true, weight)];
            Summary(Round(quality, checkpoint, 0, 2), votes) ==
              if weight > 2 then BftState(quality + 1, true, true) else BftState(quality, false, false)
  {
    SumOfOne(weight);
  }

  // ---------- Tallies ----------

  lemma {:induction false} Cast()
    ensures BallotOf(TWO_BLOCK_ROUNDS, B1) == BallotOf(TWO_BLOCK_ROUNDS, B2) == Ballot(1, true, 3)
    ensures BallotOf(TWO_BLOCK_ROUNDS, B3) == Ballot(1, true, 1)
    ensures BallotOf(TWO_BLOCK_ROUNDS, B0) == Ballot(1, true, 0)
    ensures forall b :: b in {B0, B1, B2, B3} ==> HasValidator(TWO_BLOCK_ROUNDS, b)
  {
    Heights();
  }

  /** Rebuilding a round of two blocks keeps the weight on the newer one. */
  lemma {:induction false} Rebuilt()
    ensures RoundVotes(TWO_BLOCK_ROUNDS, B1) == RoundVotes(TWO_BLOCK_ROUNDS, B2) == Some(map[1 := Vote(true, 3)])
    ensures RoundVotes(TWO_BLOCK_ROUNDS, B3) == Some(map[1 := Vote(true, 1)])
  {
    var c := TWO_BLOCK_ROUNDS;
    Heights();
    Cast();
    assert AddWalk(c, map[1 := Vote(true, 3)], B0, 0) == Some(map[1 := Vote(true, 3)]);
    assert AddWalk(c, map[1 := Vote(true, 1)], B2, 2) == Some(map[1 := Vote(true, 1)]);
    assert AddWalk(c, map[], B2, 2) == Some(map[1 := Vote(true, 3)]);
    assert AddWalk(c, map[], B1, 0) == AddWalk(c, map[1 := Vote(true, 3)], B0, 0);
    assert AddWalk(c, map[], B3, 2) == AddWalk(c, map[1 := Vote(true, 1)], B2, 2);
  }

  /** Extending the tally of block 2 by block 3 keeps the weight on block 2. */
  lemma {:induction false} Extended()
    ensures TallyFrom(TWO_BLOCK_ROUNDS, B3, 2) == Some(map[1 := Vote(true, 3)])
  {
    Heights();
    Cast();
    Rebuilt();
    assert TallyFrom(TWO_BLOCK_ROUNDS, B2, 2) == RoundVotes(TWO_BLOCK_ROUNDS, B2);
  }

  // ---------- States ----------

  lemma {:induction false} Rounds()
    ensures LastBefore(TWO_BLOCK_ROUNDS, B1) == B0 && LastBefore(TWO_BLOCK_ROUNDS, B2) == LastBefore(TWO_BLOCK_ROUNDS, B3) == B1
  {
    Heights();
    assert Ancestor(B2, 1) == Ancestor(B1, 1) == B1;
  }

  lemma {:induction false} States()
    ensures StateOf(TWO_BLOCK_ROUNDS, B1) == Ok(BftState(1, true, true))
    ensures StateOf(TWO_BLOCK_ROUNDS, B2) == Ok(BftState(2, true, true))
    ensures StateOf(TWO_BLOCK_ROUNDS, B3) == Ok(BftState(1, false, false))
  {
    var c := TWO_BLOCK_ROUNDS;
    Heights();
    Rounds();
    Rebuilt();
    assert RoundOf(c, B1) == Ok(Round(0, 0, 0, 2));
    OneSigner(0, 0, 3);
    assert StateOf(c, B1) == StateInRound(c, B1) == Ok(BftState(1, true, true));
    assert RoundOf(c, B2) == RoundOf(c, B3) == Ok(Round(1, 2, 0, 2));
    OneSigner(1, 2, 3);
    OneSigner(1, 2, 1);
    assert StateOf(c, B2) == StateInRound(c, B2);
    assert StateOf(c, B3) == StateInRound(c, B3);
  }

  /**
   * With the quality of block 1 saved, the engine can answer two states for block 3: justified of quality 2, if it kept
   * the tally of block 2, and not justified of quality 1, if it rebuilds. The second takes the justification of
   * block 2 away.
   */
  lemma {:induction false} TwoAnswers()
    ensures var c, saved := TWO_BLOCK_ROUNDS, map[B1 := 1];
            && SavedSound(c, saved) && SavedExact(c, saved) && Concluded(c, saved, B2)
            && IsAnswer(c, saved, B2, Ok(BftState(2, true, true)))
            && IsAnswer(c, saved, B3, Ok(BftState(2, true, true))) && IsAnswer(c, saved, B3, Ok(BftState(1, false, false)))
            && StateOf(c, B3) == Ok(BftState(1, false, false)) && !StableRound(c, B3)
  {
    States();
    SavedBlock1();
    ConcludedBlock2();
    KeptAnswer();
    RebuiltAnswers();
    if StableRound(TWO_BLOCK_ROUNDS, B3) {
      AnswerUnique(TWO_BLOCK_ROUNDS, map[B1 := 1], B3, Ok(BftState(2, true, true)));
      AnswerUnique(TWO_BLOCK_ROUNDS, map[B1 := 1], B3, Ok(BftState(1, false, false)));
    }
  }

  lemma {:induction false} KeptAnswer()
    ensures InRounds(TWO_BLOCK_ROUNDS, B3) && IsAnswer(TWO_BLOCK_ROUNDS, map[B1 := 1], B3, Ok(BftState(2, true, true)))
  {
    var c, saved := TWO_BLOCK_ROUNDS, map[B1 := 1];
    Heights();
    Rounds();
    Extended();
    OneSigner(1, 2, 3);
    assert RoundAt(c, saved, B3) == Ok(Round(1, 2, 0, 2));
    assert InTally(c, B3, 2) && StateFrom(c, saved, B3, 2) == Ok(BftState(2, true, true));
  }

  lemma {:induction false} RebuiltAnswers()
    ensures IsAnswer(TWO_BLOCK_ROUNDS, map[B1 := 1], B2, Ok(BftState(2, true, true)))
    ensures IsAnswer(TWO_BLOCK_ROUNDS, map[B1 := 1], B3, Ok(BftState(1, false, false)))
  {
    var c, saved := TWO_BLOCK_ROUNDS, map[B1 := 1];
    Heights();
    Rounds();
    States();
    ScratchState(c, saved, B2);
    assert InTally(c, B2, 2) && StateFrom(c, saved, B2, 2) == Ok(BftState(2, true, true));
    ScratchState(c, saved, B3);
    assert InTally(c, B3, 3) && StateFrom(c, saved, B3, 3) == Ok(BftState(1, false, false));
  }

  lemma {:induction false} SavedBlock1()
    ensures var c, saved := TWO_BLOCK_ROUNDS, map[B1 := 1];
            SavedSound(c, saved) && SavedExact(c, saved)
  {
    var c, saved := TWO_BLOCK_ROUNDS, map[B1 := 1];
    Heights();
    States();
    AnswerOfBlock1(saved);
    MultipleStep(c, 0);
    assert Multiple(c, Number(B1) + 1) && Based(c, saved, B1);
    assert SavedAt(c, saved, B1);
  }

  lemma {:induction false} ConcludedBlock2()
    ensures Concluded(TWO_BLOCK_ROUNDS, map[B1 := 1], B2)
  {
    var c, saved := TWO_BLOCK_ROUNDS, map[B1 := 1];
    Heights();
    MultipleStep(c, 1);
    assert !Multiple(c, 3);
    assert Concluded(c, map[], B0);
    ConcludedNext(c, map[], saved, B1);
    ConcludedNext(c, saved, saved, B2);
  }

  lemma {:induction false} AnswerOfBlock1(saved: Saved)
    ensures IsAnswer(TWO_BLOCK_ROUNDS, saved, B1, Ok(BftState(1, true, true)))
  {
    var c := TWO_BLOCK_ROUNDS;
    Heights();
    Rounds();
    States();
    ScratchState(c, saved, B1);
    assert InTally(c, B1, 1) && StateFrom(c, saved, B1, 1) == Ok(BftState(1, true, true));
  }

  // ---------- Fork choice ----------

  const S0 := BftState(0, false, false)
  const S1 := BftState(1, true, true)
  const S2 := BftState(2, true, true)
  const LOST := BftState(1, false, false)

  const A1 := Arrival(B1, S1, S0, S1)
  const A2 := Arrival(B2, S2, S1, S2)

  /** Blocks 1 and 2 arrive, and each becomes the best block. */
  const FIRST := [A1] + [A2]

  lemma {:induction false} FirstView()
    ensures GrowsTo(TWO_BLOCK_ROUNDS, B1, [A1]) && ViewOf(TWO_BLOCK_ROUNDS, B1, [A1]) == View(Node(map[B1 := 1], B0), B1)
  {
    var c := TWO_BLOCK_ROUNDS;
    Heights();
    AnswerOfBlock1(map[]);
    MultipleStep(c, 0);
    assert GrowsTo(c, B0, []);
    GrowOne(c, A1, []);
    assert [] + [A1] == [A1];
  }

  lemma {:induction false} SecondView()
    ensures GrowsTo(TWO_BLOCK_ROUNDS, B2, FIRST) && ViewOf(TWO_BLOCK_ROUNDS, B2, FIRST) == View(Node(map[B1 := 1], B0), B2)
  {
    var c := TWO_BLOCK_ROUNDS;
    Heights();
    FirstView();
    RebuiltAnswers();
    AnswerOfBlock1(map[B1 := 1]);
    GrowOne(c, A2, [A1]);
    MultipleStep(c, 1);
    ReplacesParentIff(c, map[B1 := 1], A2);
  }

  lemma {:induction false} ThirdArrives(st: BftState)
    requires IsAnswer(TWO_BLOCK_ROUNDS, map[B1 := 1], B3, Ok(st))
    ensures var run := FIRST + [Arrival(B3, st, S2, st)];
            GrowsTo(TWO_BLOCK_ROUNDS, B3, run) && ViewOf(TWO_BLOCK_ROUNDS, B3, run).best == if st.quality < 2 then B2 else B3
  {
    var c, a := TWO_BLOCK_ROUNDS, Arrival(B3, st, S2, st);
    SecondView();
    RebuiltAnswers();
    GrowOne(c, a, FIRST);
    ReplacesParentIff(c, map[B1 := 1], a);
  }

  /**
   * The same three blocks, with rising scores, arrive at two nodes. The one that kept its tally of block 2 ends at block 3;
   * the one that lost it in between stays at block 2, a strict ancestor.
   */
  lemma {:induction false} TwoBestBlocks()
    ensures var c, kept, lost := TWO_BLOCK_ROUNDS, FIRST + [Arrival(B3, S2, S2, S2)], FIRST + [Arrival(B3, LOST, S2, LOST)];
            && ScoresRise(B3) && StrictAncestor(B2, B3)
            && IsSelection(c, Start(B0), kept) && BlocksOf(kept) == ChainUpTo(B3) && EndView(c, Start(B0), kept).best == B3
            && IsSelection(c, Start(B0), lost) && BlocksOf(lost) == ChainUpTo(B3) && EndView(c, Start(B0), lost).best == B2
    ensures !BestFollows(TWO_BLOCK_ROUNDS, B3)
  {
    Heights();
    KeptAnswer();
    RebuiltAnswers();
    ThirdArrives(S2);
    ThirdArrives(LOST);
    assert Ancestor(B3, 2) == B2;
    assert ScoresRise(B0) && ScoresRise(B1) && ScoresRise(B2);
  }
}
