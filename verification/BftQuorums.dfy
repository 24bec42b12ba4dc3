/** Quorums of two blocks under one set of validators: whoever justifies or finalizes on two branches signs on both. */
module BftQuorums {
  import opened Wrappers
  import opened WeightedSets
  import opened BlockTree
  import opened BftVotes
  import opened BftRounds
  import opened BftTallies
  import opened BftAnswers
  import opened BftSearch
  import opened BftFinality

  /** Who signed the round of `b` up to `b`. */
  ghost function SignersOf(c: Config, b: Id): set<Address>
    requires ValidConfig(c)
  {
    Signers(Ballots(c, RoundBlocks(c, b)))
  }

  /** Who signed the round of `b` up to `b` with COM votes only. */
  ghost function ComSignersOf(c: Config, b: Id): set<Address>
    requires ValidConfig(c)
  {
    set s | s in SignersOf(c, b) && AllCom(Ballots(c, RoundBlocks(c, b)), s)
  }

  /** A block whose signer weighs what the set says. */
  ghost predicate WeighedBy(c: Config, validators: map<Address, nat>, b: Id) {
    b.Child? && UsesStake(c, Number(b)) && b.parent.header.staker.posActive && b.parent.header.staker.weights == validators
  }

  /** One set of validators governs the round of `b` up to `b`. */
  ghost predicate GovernedByWeight(c: Config, validators: map<Address, nat>, b: Id)
    requires ValidConfig(c)
  {
    && InRounds(c, b) && 2 <= Sum(validators.Keys, validators)
    && LastBefore(c, b).header.staker.posActive && LastBefore(c, b).header.staker.totalWeight == Sum(validators.Keys, validators)
    && forall h :: h in RoundBlocks(c, b) ==> WeighedBy(c, validators, h)
  }

  /** One set of proposers, as many as the limit says, governs the round of `b` up to `b`. */
  ghost predicate GovernedByCount(c: Config, proposers: set<Address>, b: Id)
    requires ValidConfig(c)
  {
    && InRounds(c, b) && !LastBefore(c, b).header.staker.posActive
    && SignersOf(c, b) <= proposers && 1 <= |proposers| <= 101
    && var limit := LastBefore(c, b).header.staker.maxProposers;
       |proposers| == limit || (|proposers| == 101 && (limit == 0 || limit > 101))
  }

  lemma {:induction false} WeighedBallot(c: Config, validators: map<Address, nat>, b: Id, v: Ballot)
    requires ValidConfig(c) && GovernedByWeight(c, validators, b) && v in Ballots(c, RoundBlocks(c, b)) && Validated(c, RoundBlocks(c, b))
    ensures v.signer in validators && v.weight == validators[v.signer]
  {
    var bs := RoundBlocks(c, b);
    var i :| 0 <= i < |bs| && Ballots(c, bs)[i] == v;
    assert bs[i] in bs;
  }

  /** Under one set a round is stable. */
  lemma {:induction false} GovernedIsStable(c: Config, validators: map<Address, nat>, b: Id)
    requires ValidConfig(c) && GovernedByWeight(c, validators, b) && Validated(c, RoundBlocks(c, b))
    ensures StableRound(c, b)
  {
    var bs := Ballots(c, RoundBlocks(c, b));
    forall v, w | v in bs && w in bs && v.signer == w.signer ensures v.weight == w.weight {
      WeighedBallot(c, validators, b, v);
      WeighedBallot(c, validators, b, w);
    }
  }

  /** What an answer says of the votes, for any tally behind it. */
  lemma {:induction false} AnswerByVotes(c: Config, saved: Saved, b: Id, st: BftState) returns (votes: map<Address, Vote>)
    requires ValidConfig(c) && InRounds(c, b) && IsAnswer(c, saved, b, Ok(st))
    ensures Validated(c, RoundBlocks(c, b)) && RoundAt(c, saved, b).Ok? && st == Summary(RoundAt(c, saved, b).value, votes)
    ensures votes.Keys == SignersOf(c, b) && ComSigners(votes) == ComSignersOf(c, b)
    ensures forall s :: s in votes ==> Casts(Ballots(c, RoundBlocks(c, b)), s, votes[s].weight)
    ensures StableRound(c, b) ==> votes == VotesOf(Ballots(c, RoundBlocks(c, b)))
  {
    var k: nat :| InTally(c, b, k) && Ok(st) == StateFrom(c, saved, b, k);
    votes := TallyFrom(c, b, k).value;
    TallyVotes(c, b, k);
    if StableRound(c, b) {
      StableTally(c, b, k);
      RoundVotesMeaning(c, b);
    }
  }

  lemma {:induction false} TallyVotes(c: Config, b: Id, k: nat)
    requires ValidConfig(c) && InTally(c, b, k) && TallyFrom(c, b, k).Some?
    ensures var votes := TallyFrom(c, b, k).value;
            && Validated(c, RoundBlocks(c, b)) && votes.Keys == SignersOf(c, b) && ComSigners(votes) == ComSignersOf(c, b)
            && forall s :: s in votes ==> Casts(Ballots(c, RoundBlocks(c, b)), s, votes[s].weight)
  {
    var bs := RoundBallots(c, b);
    TallyIsHistory(c, b, k);
    HistoryVotes(bs, |bs| - (Number(b) - k));
    ReverseMembers(Ballots(c, RoundBlocks(c, b)));
    assert Signers(bs) == SignersOf(c, b);
  }

  // ---------- By weight ----------

  /** A block of `s` in the round, which counts for `weight`: the stake in its parent's state, from the end of the transition on. */
  ghost predicate Weighs(c: Config, h: Id, s: Address, weight: nat) {
    && h.header.signer == s
    && if h.Child? && (c.hayabusa + c.transition) % 0x1_0000_0000 < Number(h) && h.parent.header.staker.posActive
       then s in h.parent.header.staker.weights && weight == h.parent.header.staker.weights[s]
       else weight == 0
  }

  lemma {:induction false} CastBy(c: Config, bs: seq<Id>, s: Address, weight: nat) returns (h: Id)
    requires Validated(c, bs) && Casts(Ballots(c, bs), s, weight)
    ensures h in bs && Weighs(c, h, s, weight)
  {
    var i :| 0 <= i < |bs| && Ballots(c, bs)[i].signer == s && Ballots(c, bs)[i].weight == weight;
    h := bs[i];
  }

  /** Every signer of the round weighs what one of its blocks there counts for. */
  ghost predicate Weighing(c: Config, b: Id, weights: map<Address, nat>)
    requires ValidConfig(c)
  {
    weights.Keys == SignersOf(c, b) && forall s :: s in weights ==> exists h :: h in RoundBlocks(c, b) && Weighs(c, h, s, weights[s])
  }

  /** Justified by signers of more than two thirds of the total, and committed by COM signers of as much. */
  ghost predicate ByWeight(c: Config, b: Id, weights: map<Address, nat>, total: nat, st: BftState)
    requires ValidConfig(c) && weights.Keys == SignersOf(c, b)
  {
    && (st.justified <==> 3 * Sum(SignersOf(c, b), weights) > 2 * total)
    && (st.committed <==> 3 * Sum(ComSignersOf(c, b), weights) > 2 * total)
  }

  /**
   * Where stake counts, a round is justified by signers of more than two thirds of the total weight, and committed by COM
   * signers of as much. Only if the total is 1 are signers counted instead, and one is enough.
   */
  lemma {:induction false} WeighedAnswer(c: Config, saved: Saved, b: Id, st: BftState) returns (weights: map<Address, nat>)
    requires ValidConfig(c) && InRounds(c, b) && IsAnswer(c, saved, b, Ok(st)) && LastBefore(c, b).header.staker.posActive
    ensures Weighing(c, b, weights)
    ensures var total := LastBefore(c, b).header.staker.totalWeight;
            && total > 0
            && (total > 1 ==> ByWeight(c, b, weights, total, st))
            && (total == 1 ==> st.justified && (st.committed <==> ComSignersOf(c, b) != {}))
  {
    var votes := AnswerByVotes(c, saved, b, st);
    weights := Weights(votes);
    VotesWeigh(c, b, votes);
    SummaryByWeight(RoundAt(c, saved, b).value, votes, LastBefore(c, b).header.staker.totalWeight);
    SignedByHead(c, b);
  }

  lemma {:induction false} VotesWeigh(c: Config, b: Id, votes: map<Address, Vote>)
    requires ValidConfig(c) && Validated(c, RoundBlocks(c, b)) && votes.Keys == SignersOf(c, b)
    requires forall s :: s in votes ==> Casts(Ballots(c, RoundBlocks(c, b)), s, votes[s].weight)
    ensures Weighing(c, b, Weights(votes))
  {
    var weights := Weights(votes);
    forall s | s in weights ensures exists h :: h in RoundBlocks(c, b) && Weighs(c, h, s, weights[s]) {
      var h := CastBy(c, RoundBlocks(c, b), s, weights[s]);
    }
  }

  lemma {:induction false} SignedByHead(c: Config, b: Id)
    requires ValidConfig(c)
    ensures b.header.signer in SignersOf(c, b)
  {
    var bs := RoundBlocks(c, b);
    assert bs[0] == b && Ballots(c, bs)[0] in Ballots(c, bs);
  }

  /** A justified round has signers of more than two thirds of the weight, and a committed one as many COM signers. */
  lemma {:induction false} QuorumOf(c: Config, validators: map<Address, nat>, saved: Saved, b: Id, st: BftState)
    requires ValidConfig(c) && GovernedByWeight(c, validators, b) && IsAnswer(c, saved, b, Ok(st))
    ensures ComSignersOf(c, b) <= SignersOf(c, b) <= validators.Keys
    ensures st.justified <==> 3 * Sum(SignersOf(c, b), validators) > 2 * Sum(validators.Keys, validators)
    ensures st.committed <==> 3 * Sum(ComSignersOf(c, b), validators) > 2 * Sum(validators.Keys, validators)
  {
    var votes := AnswerByVotes(c, saved, b, st);
    GovernedIsStable(c, validators, b);
    var bs := Ballots(c, RoundBlocks(c, b));
    forall s | s in votes ensures s in validators && votes[s].weight == validators[s] {
      FirstWeightIsCast(bs, s);
      var v :| v in bs && v.signer == s && v.weight == FirstWeight(bs, s);
      WeighedBallot(c, validators, b, v);
    }
    JustifiedByWeight(validators, RoundAt(c, saved, b).value, votes);
  }

  /** Two blocks justified under one set, on whatever branches and by whatever nodes, share signers of more than a third. */
  lemma {:induction false} JustifiedOverlap(
    c: Config, validators: map<Address, nat>, saved: Saved, x: Id, sx: BftState, saved': Saved, y: Id, sy: BftState)
    requires ValidConfig(c) && GovernedByWeight(c, validators, x) && GovernedByWeight(c, validators, y)
    requires IsAnswer(c, saved, x, Ok(sx)) && IsAnswer(c, saved', y, Ok(sy)) && sx.justified && sy.justified
    ensures 3 * Sum(SignersOf(c, x) * SignersOf(c, y), validators) > Sum(validators.Keys, validators)
  {
    QuorumOf(c, validators, saved, x, sx);
    QuorumOf(c, validators, saved', y, sy);
    WeightsOverlap(validators, SignersOf(c, x), SignersOf(c, y));
  }

  /**
   * If two nodes finalize conflicting checkpoints under one set, the blocks that finalized them lie on different
   * branches, and more than a third of the weight voted COM throughout both rounds.
   */
  lemma {:induction false} ConflictIsAccountable(c: Config, validators: map<Address, nat>, m: Node, x: Step, n: Node, y: Step)
    requires ValidConfig(c) && Commits(c, m, x) && Commits(c, n, y) && Finalizable(c, m.finalized) && Finalizable(c, n.finalized)
    requires GovernedByWeight(c, validators, x.block) && GovernedByWeight(c, validators, y.block)
    requires Found(c, m, x) && Found(c, n, y) && !OnOneChain(Commit(c, m, x).finalized, Commit(c, n, y).finalized)
    ensures !OnOneChain(x.block, y.block)
    ensures 3 * Sum(ComSignersOf(c, x.block) * ComSignersOf(c, y.block), validators) > Sum(validators.Keys, validators)
  {
    QuorumOf(c, validators, m.saved, x.block, x.state);
    QuorumOf(c, validators, n.saved, y.block, y.state);
    WeightsOverlap(validators, ComSignersOf(c, x.block), ComSignersOf(c, y.block));
    FoundBelow(c, m, x);
    FoundBelow(c, n, y);
    if IsAncestor(x.block, y.block) {
      Diverge(Commit(c, m, x).finalized, x.block, Commit(c, n, y).finalized, y.block);
    }
    if IsAncestor(y.block, x.block) {
      Diverge(Commit(c, n, y).finalized, y.block, Commit(c, m, x).finalized, x.block);
    }
  }

  /** The step finalizes a checkpoint. */
  ghost predicate Found(c: Config, node: Node, s: Step)
    requires ValidConfig(c)
  {
    Finalizes(c, s.block, s.state) && CheckpointFor(c, Commit(c, node, s).saved, s.state.quality - 1, SearchStart(c, node.finalized), s.block).Ok?
  }

  lemma {:induction false} FoundBelow(c: Config, node: Node, s: Step)
    requires ValidConfig(c) && Finalizable(c, node.finalized) && Found(c, node, s)
    ensures IsAncestor(Commit(c, node, s).finalized, s.block)
  {
    CheckpointForIsFirst(c, Commit(c, node, s).saved, s.state.quality - 1, SearchStart(c, node.finalized), s.block);
  }

  lemma {:induction false} Diverge(f: Id, x: Id, g: Id, y: Id)
    requires IsAncestor(f, x) && IsAncestor(g, y) && IsAncestor(x, y)
    ensures OnOneChain(f, g)
  {
    AncestorTrans(f, x, y);
    if Number(f) <= Number(g) {
      AncestorsNested(f, g, y);
    } else {
      AncestorsNested(g, f, y);
    }
  }

  // ---------- By count ----------

  /** Justified by more than two thirds of so many signers, and committed by as many COM signers. */
  ghost predicate ByCount(c: Config, b: Id, n: nat, st: BftState)
    requires ValidConfig(c)
  {
    (st.justified <==> 3 * |SignersOf(c, b)| > 2 * n) && (st.committed <==> 3 * |ComSignersOf(c, b)| > 2 * n)
  }

  /**
   * Without stake, a round is justified by more than two thirds of the proposers that there may be, and committed by as many
   * COM signers. There may be 101 proposers if the limit is not set or higher.
   */
  lemma {:induction false} CountedAnswer(c: Config, saved: Saved, b: Id, st: BftState)
    requires ValidConfig(c) && InRounds(c, b) && IsAnswer(c, saved, b, Ok(st)) && !LastBefore(c, b).header.staker.posActive
    ensures var limit := LastBefore(c, b).header.staker.maxProposers;
            && (limit == 0 || limit > 101 ==> ByCount(c, b, 101, st))
            && (1 <= limit <= 101 ==> ByCount(c, b, limit, st))
  {
    var votes := AnswerByVotes(c, saved, b, st);
  }

  /** The state of a block says what quorum signed its round: by weight where stake counts, and by count else. */
  ghost predicate ByQuorum(c: Config, b: Id, st: BftState)
    requires ValidConfig(c) && b.Child?
  {
    var staker := LastBefore(c, b).header.staker;
    if !staker.posActive then ByCount(c, b, if 1 <= staker.maxProposers <= 101 then staker.maxProposers else 101, st)
    else if staker.totalWeight == 1 then st.justified && (st.committed <==> ComSignersOf(c, b) != {})
    else exists weights :: Weighing(c, b, weights) && ByWeight(c, b, weights, staker.totalWeight, st)
  }

  lemma {:induction false} AnswerByQuorum(c: Config, saved: Saved, b: Id, st: BftState)
    requires ValidConfig(c) && InRounds(c, b) && IsAnswer(c, saved, b, Ok(st))
    ensures ByQuorum(c, b, st)
  {
    if LastBefore(c, b).header.staker.posActive {
      var weights := WeighedAnswer(c, saved, b, st);
    } else {
      CountedAnswer(c, saved, b, st);
    }
  }

  /** The same by head count, where each proposer counts once. */
  lemma {:induction false} CountedOverlap(c: Config, proposers: set<Address>, saved: Saved, x: Id, sx: BftState, saved': Saved, y: Id, sy: BftState)
    requires ValidConfig(c) && GovernedByCount(c, proposers, x) && GovernedByCount(c, proposers, y)
    requires IsAnswer(c, saved, x, Ok(sx)) && IsAnswer(c, saved', y, Ok(sy))
    ensures sx.justified && sy.justified ==> 3 * |SignersOf(c, x) * SignersOf(c, y)| > |proposers|
    ensures sx.committed && sy.committed ==> 3 * |ComSignersOf(c, x) * ComSignersOf(c, y)| > |proposers|
  {
    var vx := AnswerByVotes(c, saved, x, sx);
    var vy := AnswerByVotes(c, saved', y, sy);
    if sx.justified && sy.justified {
      HeadsOverlap(proposers, SignersOf(c, x), SignersOf(c, y));
    }
    if sx.committed && sy.committed {
      HeadsOverlap(proposers, ComSignersOf(c, x), ComSignersOf(c, y));
    }
  }
}
