/** Rounds of the BFT engine: which blocks form a round and what state a head has, computed from scratch. */
module BftRounds {
  import opened Wrappers
  import opened Arithmetic
  import opened BlockTree
  import opened BftVotes

  const U32: nat := 0x1_0000_0000

  /** Epoch length and the fork heights the engine looks at. */
  datatype Config = Config(epoch: nat, finality: nat, hayabusa: nat, transition: nat)

  ghost predicate ValidConfig(c: Config) {
    1 <= c.epoch
  }

  /** What the world state at a block says about proposers. */
  datatype Staker = Staker(posActive: bool, totalWeight: nat, weights: map<Address, nat>, maxProposers: nat)

  datatype Header = Header(signer: Address, com: bool, totalScore: nat, staker: Staker)

  type Id = Block<Header>

  datatype Error = NoTotalWeight | ValidatorNotFound | QualityNotFound | NotOnChain

  // ---------- Round arithmetic ----------

  /** `n` is a whole number of epochs: a round starts at `n` and one ends just below it. */
  ghost predicate Multiple(c: Config, n: nat)
    requires ValidConfig(c)
    decreases n, 1
  {
    IsMultiple(c, n)
  }

  ghost predicate IsMultiple(c: Config, n: nat)
    requires ValidConfig(c)
    decreases n, 0
  {
    n == 0 || (c.epoch <= n && Multiple(c, n - c.epoch))
  }

  lemma {:induction false} MultipleStep(c: Config, n: nat)
    requires ValidConfig(c)
    ensures Multiple(c, 0)
    ensures Multiple(c, n + c.epoch) <==> Multiple(c, n)
    ensures Multiple(c, n) && 0 < n ==> c.epoch <= n && Multiple(c, n - c.epoch)
  {
    assert IsMultiple(c, 0) && Multiple(c, n) == IsMultiple(c, n) && Multiple(c, n + c.epoch) == IsMultiple(c, n + c.epoch);
  }

  lemma {:induction false} MultiplesApart(c: Config, m: nat, n: nat)
    requires ValidConfig(c) && Multiple(c, m) && Multiple(c, n)
    ensures m < n ==> m + c.epoch <= n
    decreases n
  {
    MultipleStep(c, m);
    MultipleStep(c, n);
    if 0 < m < n {
      MultiplesApart(c, m - c.epoch, n - c.epoch);
    }
  }

  lemma {:induction false} SameQuotient(e: nat, q: nat, m: nat)
    requires 1 <= e && q * e <= m < q * e + e
    ensures m / e == q
  {
    MulGap(m / e, q, e);
    MulGap(q, m / e, e);
  }

  lemma {:induction false} MultipleBelow(c: Config, n: nat)
    requires ValidConfig(c)
    ensures Multiple(c, n / c.epoch * c.epoch) && n / c.epoch * c.epoch <= n < n / c.epoch * c.epoch + c.epoch
    decreases n
  {
    if c.epoch <= n {
      var q := (n - c.epoch) / c.epoch;
      MultipleBelow(c, n - c.epoch);
      MultipleStep(c, q * c.epoch);
      assert (q + 1) * c.epoch == q * c.epoch + c.epoch;
      SameQuotient(c.epoch, q + 1, n);
    } else {
      MultipleStep(c, 0);
      SameQuotient(c.epoch, 0, n);
    }
  }

  /** The first height of the round of `n`. */
  ghost function Checkpoint(c: Config, n: nat): (r: nat)
    requires ValidConfig(c)
    ensures Multiple(c, r) && r <= n < r + c.epoch
  {
    MultipleBelow(c, n);
    var r: nat :| Multiple(c, r) && r <= n < r + c.epoch;
    r
  }

  lemma {:induction false} CheckpointUnique(c: Config, n: nat, r: nat)
    requires ValidConfig(c) && Multiple(c, r) && r <= n < r + c.epoch
    ensures Checkpoint(c, n) == r
  {
    MultiplesApart(c, r, Checkpoint(c, n));
    MultiplesApart(c, Checkpoint(c, n), r);
  }

  /** The engine's arithmetic: checkpoints, store points and round indices of a height. */
  lemma {:induction false} EngineArithmetic(c: Config, m: nat, n: nat)
    requires ValidConfig(c)
    ensures n / c.epoch * c.epoch == Checkpoint(c, n)
    ensures n / c.epoch * c.epoch + c.epoch - 1 == n <==> Multiple(c, n + 1)
    ensures m / c.epoch == n / c.epoch <==> Checkpoint(c, m) == Checkpoint(c, n)
  {
    QuotientIsCheckpoint(c, m);
    QuotientIsCheckpoint(c, n);
    if Checkpoint(c, m) == Checkpoint(c, n) {
      SameQuotient(c.epoch, n / c.epoch, m);
    }
    EndsRound(c, n);
  }

  lemma {:induction false} QuotientIsCheckpoint(c: Config, n: nat)
    requires ValidConfig(c)
    ensures n / c.epoch * c.epoch == Checkpoint(c, n)
  {
    MultipleBelow(c, n);
    CheckpointUnique(c, n, n / c.epoch * c.epoch);
  }

  lemma {:induction false} EndsRound(c: Config, n: nat)
    requires ValidConfig(c)
    ensures Checkpoint(c, n) + c.epoch == n + 1 <==> Multiple(c, n + 1)
  {
    MultipleStep(c, Checkpoint(c, n));
    if Multiple(c, n + 1) {
      MultiplesApart(c, Checkpoint(c, n), n + 1);
    }
  }

  /** A round after that of the FINALITY fork starts above the fork. */
  lemma {:induction false} LaterRound(c: Config, n: nat)
    requires ValidConfig(c) && c.finality <= n && Checkpoint(c, n) != Checkpoint(c, c.finality)
    ensures c.finality < Checkpoint(c, n)
  {
    if Checkpoint(c, n) <= c.finality {
      CheckpointUnique(c, c.finality, Checkpoint(c, n));
    }
  }

  // ---------- The state of a head, from scratch ----------

  function MaxBlockProposers(raw: nat): nat {
    if raw == 0 || raw > 101 then 101 else raw
  }

  predicate UsesStake(c: Config, n: nat) {
    n > (c.hayabusa + c.transition) % U32
  }

  ghost predicate HasValidator(c: Config, b: Id) {
    b.Child? && UsesStake(c, Number(b)) && b.parent.header.staker.posActive ==>
      b.header.signer in b.parent.header.staker.weights
  }

  /** What a block contributes to its round: its signer weighs what the parent's state says. */
  ghost function BallotOf(c: Config, b: Id): Ballot {
    var weight :=
      if b.Child? && UsesStake(c, Number(b)) && b.parent.header.staker.posActive && b.header.signer in b.parent.header.staker.weights
      then b.parent.header.staker.weights[b.header.signer] else 0;
    Ballot(b.header.signer, b.header.com, weight)
  }

  /** The blocks from `b` back to height `end`, but not below the FINALITY fork, newest first. */
  ghost function Walk(c: Config, b: Id, end: nat): seq<Id> {
    if b.Genesis? || Number(b) <= end || Number(b) <= c.finality then [b] else [b] + Walk(c, b.parent, end)
  }

  /** The blocks of the round of `b` up to `b`. */
  ghost function RoundBlocks(c: Config, b: Id): seq<Id>
    requires ValidConfig(c)
  {
    Walk(c, b, Checkpoint(c, Number(b)))
  }

  ghost predicate Validated(c: Config, bs: seq<Id>) {
    forall b :: b in bs ==> HasValidator(c, b)
  }

  ghost function Ballots(c: Config, bs: seq<Id>): (r: seq<Ballot>)
    ensures |r| == |bs|
  {
    seq(|bs|, i requires 0 <= i < |bs| => BallotOf(c, bs[i]))
  }

  lemma {:induction false} RoundCons(c: Config, b: Id, bs: seq<Id>)
    ensures Ballots(c, [b] + bs) == [BallotOf(c, b)] + Ballots(c, bs)
    ensures Validated(c, [b] + bs) <==> HasValidator(c, b) && Validated(c, bs)
  {
    assert ([b] + bs)[0] == b;
    assert forall x :: x in bs ==> x in [b] + bs;
  }

  /** `votes` after adding the blocks from `b` back to `end`; none once a signer is not a validator. */
  ghost function AddWalk(c: Config, votes: map<Address, Vote>, b: Id, end: nat): Option<map<Address, Vote>>
    decreases b
  {
    if !HasValidator(c, b) then None
    else
      var votes' := AddVote(votes, BallotOf(c, b));
      if b.Genesis? || Number(b) <= end || Number(b) <= c.finality then Some(votes') else AddWalk(c, votes', b.parent, end)
  }

  lemma {:induction false} AddWalkVotes(c: Config, bs: seq<Ballot>, b: Id, end: nat)
    ensures var blocks := Walk(c, b, end);
            AddWalk(c, VotesOf(bs), b, end) ==
              if Validated(c, blocks) then Some(VotesOf(bs + Ballots(c, blocks))) else None
    decreases b
  {
    var v := BallotOf(c, b);
    VotesAppend(bs, v);
    if b.Genesis? || Number(b) <= end || Number(b) <= c.finality {
      RoundCons(c, b, []);
      assert [b] + [] == [b] && [v] + [] == [v] && Ballots(c, []) == [];
    } else {
      var rest := Walk(c, b.parent, end);
      RoundCons(c, b, rest);
      AddWalkVotes(c, bs + [v], b.parent, end);
      assert bs + ([v] + Ballots(c, rest)) == bs + [v] + Ballots(c, rest);
    }
  }

  // ---------- Which blocks have rounds, and what their state is ----------

  ghost predicate InRounds(c: Config, b: Id) {
    b.Child? && c.finality <= Number(b)
  }

  /** The votes of the round of `b` up to `b`, tallied backwards from `b`; none if a signer is not a validator. */
  ghost function RoundVotes(c: Config, b: Id): Option<map<Address, Vote>>
    requires ValidConfig(c)
  {
    AddWalk(c, map[], b, Checkpoint(c, Number(b)))
  }

  /** One vote for each signer of the round, COM iff all blocks of the signer in the round are COM. */
  lemma {:induction false} RoundVotesMeaning(c: Config, b: Id)
    requires ValidConfig(c)
    ensures var bs := RoundBlocks(c, b);
            RoundVotes(c, b) == if Validated(c, bs) then Some(VotesOf(Ballots(c, bs))) else None
  {
    AddWalkVotes(c, [], b, Checkpoint(c, Number(b)));
    var bs := Ballots(c, RoundBlocks(c, b));
    assert [] + bs == bs && VotesOf([]) == map[];
  }

  /** The last block before the round of `b`. */
  ghost function LastBefore(c: Config, b: Id): (last: Id)
    requires ValidConfig(c) && b.Child?
    ensures Number(last) < Number(b)
  {
    var checkpoint := Checkpoint(c, Number(b));
    Ancestor(b.parent, if checkpoint > 0 then checkpoint - 1 else 0)
  }

  /** The parameters of the round of `b`: thresholds and quality come from the last block before it. */
  ghost function RoundOf(c: Config, b: Id): Result<Round, Error>
    requires ValidConfig(c) && b.Child?
    decreases Number(b), 0
  {
    var last := LastBefore(c, b);
    var quality := if Checkpoint(c, Number(b)) == Checkpoint(c, c.finality) then 0 else QualityOf(c, last);
    StartRound(Checkpoint(c, Number(b)), quality, last.header.staker)
  }

  function StartRound(checkpoint: nat, quality: nat, staker: Staker): Result<Round, Error> {
    if staker.posActive then
      if staker.totalWeight == 0 then Err(NoTotalWeight)
      else Ok(Round(quality, checkpoint, 0, TwoThirds(staker.totalWeight)))
    else Ok(Round(quality, checkpoint, TwoThirds(MaxBlockProposers(staker.maxProposers)), 0))
  }

  ghost function Outcome(round: Result<Round, Error>, votes: Option<map<Address, Vote>>): Result<BftState, Error> {
    match round
    case Err(e) => Err(e)
    case Ok(r) => if votes.Some? then Ok(Summary(r, votes.value)) else Err(ValidatorNotFound)
  }

  /** The BFT state of a block, from scratch: the summary of the votes of its round up to the block. */
  ghost function StateOf(c: Config, b: Id): Result<BftState, Error>
    requires ValidConfig(c)
    decreases Number(b), 2
  {
    if InRounds(c, b) then StateInRound(c, b) else Ok(BftState(0, false, false))
  }

  ghost function StateInRound(c: Config, b: Id): Result<BftState, Error>
    requires ValidConfig(c) && InRounds(c, b)
    decreases Number(b), 1
  {
    Outcome(RoundOf(c, b), RoundVotes(c, b))
  }

  ghost function QualityOf(c: Config, b: Id): nat
    requires ValidConfig(c)
    decreases Number(b), 3
  {
    match StateOf(c, b)
    case Ok(st) => st.quality
    case Err(_) => 0
  }

  /** A block that does not start a round is in its parent's round. */
  lemma {:induction false} ParentRound(c: Config, b: Id)
    requires ValidConfig(c) && b.Child? && Checkpoint(c, Number(b)) != Number(b)
    ensures Checkpoint(c, Number(b.parent)) == Checkpoint(c, Number(b))
  {
    CheckpointUnique(c, Number(b) - 1, Checkpoint(c, Number(b)));
  }

  /** A block and its parent in the same round have the same round parameters. */
  lemma {:induction false} RoundOfParent(c: Config, b: Id)
    requires ValidConfig(c) && b.Child? && b.parent.Child?
    requires Checkpoint(c, Number(b.parent)) == Checkpoint(c, Number(b))
    ensures RoundOf(c, b) == RoundOf(c, b.parent)
  {
    assert LastBefore(c, b) == LastBefore(c, b.parent);
  }

  // ---------- Qualities along a chain ----------

  /** A justified round adds one to the quality it starts from. */
  lemma {:induction false} StateSummary(c: Config, b: Id)
    requires ValidConfig(c) && InRounds(c, b) && StateOf(c, b).Ok?
    ensures RoundOf(c, b).Ok?
    ensures var st := StateOf(c, b).value;
            && st.quality == RoundOf(c, b).value.parentQuality + (if st.justified then 1 else 0)
            && (st.committed ==> st.justified)
  {
    assert StateOf(c, b) == StateInRound(c, b);
    CommittedIsJustified(RoundOf(c, b).value, RoundVotes(c, b).value);
  }

  /** A round's quality is that of the previous round, plus one exactly if the round is justified. */
  lemma {:induction false} QualityStep(c: Config, b: Id)
    requires ValidConfig(c) && StateOf(c, b).Ok? && c.finality < Checkpoint(c, Number(b))
    ensures var st := StateOf(c, b).value;
            && st.quality == QualityOf(c, Ancestor(b, Checkpoint(c, Number(b)) - 1)) + (if st.justified then 1 else 0)
            && (st.committed ==> st.justified)
  {
    StateSummary(c, b);
  }

  /** In the round of the FINALITY fork the quality is at most one. */
  lemma {:induction false} FirstRoundQuality(c: Config, b: Id)
    requires ValidConfig(c) && Checkpoint(c, Number(b)) == Checkpoint(c, c.finality)
    ensures QualityOf(c, b) <= 1
  {
    if InRounds(c, b) && StateOf(c, b).Ok? {
      StateSummary(c, b);
    }
  }
}
