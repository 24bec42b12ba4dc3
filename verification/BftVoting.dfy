/** What the voting rule promises: when a signer that follows it can vote COM on two branches. */
module BftVoting {
  import opened Wrappers
  import opened BlockTree
  import opened BftVotes
  import opened BftRounds
  import opened BftAnswers
  import opened BftSearch
  import opened BftFinality
  import opened BftQuorums

  ghost predicate Exactly(c: Config, saved: Saved)
    requires ValidConfig(c)
  {
    SavedSound(c, saved) && SavedExact(c, saved)
  }

  /** `b` is in the round of `x`, on its chain. */
  ghost predicate InRoundOf(c: Config, b: Id, x: Id)
    requires ValidConfig(c)
  {
    InRounds(c, b) && InRounds(c, x) && IsAncestor(b, x) && Checkpoint(c, Number(b)) == Checkpoint(c, Number(x))
  }

  ghost function CheckpointOf(c: Config, b: Id): Id
    requires ValidConfig(c)
  {
    Ancestor(b, Checkpoint(c, Number(b)))
  }

  /** The signer packed a block of the round of `x`, for which `st` was answered, and remembers the cast. */
  ghost predicate HasCast(c: Config, casts: map<Id, nat>, x: Id, b: Id, saved: Saved, st: BftState)
    requires ValidConfig(c)
  {
    && InRoundOf(c, b, x) && Exactly(c, saved) && Based(c, saved, b) && IsAnswer(c, saved, b, Ok(st))
    && CheckpointOf(c, x) in casts && casts[CheckpointOf(c, x)] == st.quality
  }

  /** The rule lets the signer vote COM on top of `parent`, for which `st` was answered, in a round after the first. */
  ghost predicate VotesOn(c: Config, finalized: Id, casts: map<Id, nat>, saved: Saved, parent: Id, st: BftState)
    requires ValidConfig(c)
  {
    && InRounds(c, parent) && Checkpoint(c, Number(parent) + 1) != Checkpoint(c, c.finality) && StableBlock(c, parent)
    && Exactly(c, saved) && Concluded(c, saved, parent.parent) && Finalizable(c, finalized)
    && IsAnswer(c, saved, parent, Ok(st)) && RecentJustified(c, saved, finalized, parent, st).Ok?
    && MayVote(finalized, casts, RecentJustified(c, saved, finalized, parent, st).value, st.quality)
  }

  // ---------- The lock ----------

  /** What conflicts with an ancestor conflicts with the descendant. */
  lemma {:induction false} ConflictGrows(f: Id, x: Id, y: Id)
    requires IsAncestor(f, x) && OnOneChain(x, y)
    ensures OnOneChain(f, y)
  {
    if IsAncestor(x, y) {
      AncestorTrans(f, x, y);
    } else if Number(f) <= Number(y) {
      AncestorsNested(f, y, x);
    } else {
      AncestorsNested(y, f, x);
    }
  }

  /**
   * A cast for a checkpoint above `f` locks its signer: as long as the cast counts, COM is not voted for a checkpoint that
   * conflicts with `f`, unless the head's quality is higher by two.
   */
  lemma {:induction false} CastLocks(f: Id, cast: Id, finalized: Id, casts: map<Id, nat>, recent: Id, quality: nat)
    requires cast in casts && IsAncestor(f, cast) && Number(finalized) <= Number(cast)
    requires MayVote(finalized, casts, recent, quality) && !OnOneChain(f, recent)
    ensures casts[cast] + 1 < quality
  {
    if casts[cast] + 1 >= quality {
      assert OnOneChain(cast, recent);
      ConflictGrows(f, cast, recent);
    }
  }

  // ---------- Qualities in a round ----------

  /** On exact qualities the rounds of all nodes start from the same quality. */
  lemma {:induction false} SameBase(c: Config, b: Id, saved: Saved, x: Id, saved': Saved)
    requires ValidConfig(c) && InRoundOf(c, b, x) && Exactly(c, saved) && Exactly(c, saved') && Based(c, saved, b) && Based(c, saved', x)
    ensures LastBefore(c, b) == LastBefore(c, x) && BaseQuality(c, saved, b) == BaseQuality(c, saved', x)
  {
    SameLast(c, b, x);
    SavedChildren(c, saved);
    SavedChildren(c, saved');
    ExactSavedBase(c, saved, b);
    ExactSavedBase(c, saved', x);
  }

  lemma {:induction false} SameLast(c: Config, b: Id, x: Id)
    requires ValidConfig(c) && InRoundOf(c, b, x)
    ensures LastBefore(c, b) == LastBefore(c, x)
  {
    var n := if Checkpoint(c, Number(b)) > 0 then Checkpoint(c, Number(b)) - 1 else 0;
    AncestorTwice(x, Number(b), n);
    assert n < Number(b) && Ancestor(b, n) == Ancestor(b.parent, n) && Ancestor(x, n) == Ancestor(x.parent, n);
  }

  /** A cast in the round of `x` has at least the quality of `x` less one. */
  lemma {:induction false} CastQuality(c: Config, b: Id, saved: Saved, st: BftState, x: Id, saved': Saved, sx: BftState)
    requires ValidConfig(c) && InRoundOf(c, b, x) && Exactly(c, saved) && Exactly(c, saved') && Based(c, saved, b) && Based(c, saved', x)
    requires IsAnswer(c, saved, b, Ok(st)) && IsAnswer(c, saved', x, Ok(sx))
    ensures sx.quality <= st.quality + 1
  {
    SameBase(c, b, saved, x, saved');
    AnswerQuality(c, saved, b, st);
    AnswerQuality(c, saved', x, sx);
  }

  /** The head that is voted on has the quality of the round it is voted in, or one less. */
  lemma {:induction false} HeadQuality(c: Config, parent: Id, saved: Saved, st: BftState, b: Id, y: Id, saved': Saved, sy: BftState)
    requires ValidConfig(c) && InRoundOf(c, b, y) && b.parent == parent && InRounds(c, parent) && StableBlock(c, parent)
    requires Checkpoint(c, Number(b)) != Checkpoint(c, c.finality)
    requires Exactly(c, saved) && Exactly(c, saved') && Concluded(c, saved, parent.parent) && Based(c, saved', y)
    requires IsAnswer(c, saved, parent, Ok(st)) && IsAnswer(c, saved', y, Ok(sy)) && sy.justified
    ensures sy.quality - 1 <= st.quality <= sy.quality
  {
    AnswerQuality(c, saved', y, sy);
    ConcludedBase(c, saved, parent);
    if Checkpoint(c, Number(parent)) == Checkpoint(c, Number(y)) {
      AncestorTwice(y, Number(b), Number(parent));
      assert Ancestor(b, Number(parent)) == parent;
      SameBase(c, parent, saved, y, saved');
      AnswerQuality(c, saved, parent, st);
    } else {
      BeforeRound(c, b, y);
      AnswerExact(c, saved, parent, st);
    }
  }

  /** A block whose parent is in another round starts its round. */
  lemma {:induction false} BeforeRound(c: Config, b: Id, y: Id)
    requires ValidConfig(c) && InRoundOf(c, b, y) && Checkpoint(c, Number(b.parent)) != Checkpoint(c, Number(b))
    ensures LastBefore(c, y) == b.parent
  {
    if Checkpoint(c, Number(b)) != Number(b) {
      ParentRound(c, b);
    }
    SameLast(c, b, y);
  }

  // ---------- What is voted for, and what is finalized ----------

  /** The checkpoint that a step finalizes: below the round of the block, with its quality less one, and the first such. */
  lemma {:induction false} FinalizedSpec(c: Config, n: Node, y: Step)
    requires ValidConfig(c) && Finalizable(c, n.finalized) && Found(c, n, y)
    ensures var f, start := Commit(c, n, y).finalized, SearchStart(c, n.finalized);
            && IsAncestor(f, y.block) && start <= Number(f) && Multiple(c, Number(f)) && Number(f) + c.epoch <= Checkpoint(c, Number(y.block))
            && forall m :: start <= m < Number(f) && Multiple(c, m) && m + c.epoch - 1 < Number(y.block) ==>
                 QualityAt(c, n.saved, m, y.block) < y.state.quality - 1
  {
    var saved, start := Commit(c, n, y).saved, SearchStart(c, n.finalized);
    CheckpointForIsFirst(c, saved, y.state.quality - 1, start, y.block);
    var f := Commit(c, n, y).finalized;
    EndsRound(c, Number(y.block));
    MultiplesApart(c, Checkpoint(c, Number(y.block)), Number(f));
    MultiplesApart(c, Number(f), Checkpoint(c, Number(y.block)));
  }

  /** On exact qualities, nodes agree on the quality of a round that ended on both chains. */
  lemma {:induction false} SameSaved(c: Config, saved: Saved, saved': Saved, a: Id, b: Id, n: nat)
    requires ValidConfig(c) && Exactly(c, saved) && Exactly(c, saved') && Concluded(c, saved, a) && Concluded(c, saved', b)
    requires n <= Number(a) && n <= Number(b) && Ancestor(a, n) == Ancestor(b, n) && Multiple(c, n + 1) && c.finality <= n
    ensures SavedQuality(saved, Ancestor(a, n)) == SavedQuality(saved', Ancestor(b, n))
  {
    SavedChildren(c, saved);
    SavedChildren(c, saved');
  }

  /** The checkpoint that a COM vote in the round of `y` refers to is not below the one that `y` finalizes. */
  lemma {:induction false} RecentNotBelow(c: Config, n: Node, y: Step, finalized: Id, casts: map<Id, nat>, saved: Saved, b: Id, st: BftState)
    requires ValidConfig(c) && Commits(c, n, y) && Finalizable(c, n.finalized) && Found(c, n, y) && Exactly(c, n.saved)
    requires InRoundOf(c, b, y.block) && VotesOn(c, finalized, casts, saved, b.parent, st)
    requires SearchStart(c, n.finalized) <= Number(RecentJustified(c, saved, finalized, b.parent, st).value)
    requires y.state.quality - 1 <= st.quality
    ensures IsAncestor(Commit(c, n, y).finalized, RecentJustified(c, saved, finalized, b.parent, st).value)
  {
    var f, recent := Commit(c, n, y).finalized, RecentJustified(c, saved, finalized, b.parent, st).value;
    FinalizedSpec(c, n, y);
    RecentJustifiedIsFirst(c, saved, finalized, b.parent, st);
    ParentOn(b, y.block);
    AncestorTrans(recent, b.parent, y.block);
    if Number(recent) < Number(f) {
      LowerBelow(c, n, y, saved, b, Number(recent), st.quality);
    }
    AncestorsNested(f, recent, y.block);
  }

  lemma {:induction false} ParentOn(b: Id, y: Id)
    requires b.Child? && IsAncestor(b, y)
    ensures IsAncestor(b.parent, y)
  {
    AncestorTwice(y, Number(b), Number(b.parent));
    assert Ancestor(b, Number(b.parent)) == b.parent;
  }

  /** Rounds below the checkpoint that `y` finalizes have ended before `b.parent`. */
  lemma {:induction false} EndedBelow(c: Config, n: Node, y: Step, b: Id, m: nat)
    requires ValidConfig(c) && Finalizable(c, n.finalized) && Found(c, n, y) && InRoundOf(c, b, y.block)
    requires SearchStart(c, n.finalized) <= m < Number(Commit(c, n, y).finalized) && Multiple(c, m)
    ensures m + c.epoch - 1 < Number(b) - 1 && Multiple(c, m + c.epoch) && c.finality <= m + c.epoch - 1
    ensures QualityAt(c, n.saved, m, y.block) < y.state.quality - 1
  {
    FinalizedSpec(c, n, y);
    MultiplesApart(c, m, Number(Commit(c, n, y).finalized));
    MultipleStep(c, m);
    RoundStart(c, b, y.block);
    SearchStartLow(c, n.finalized);
  }

  /** There, all nodes have the same qualities, which are lower. */
  lemma {:induction false} LowerBelow(c: Config, n: Node, y: Step, saved: Saved, b: Id, m: nat, quality: nat)
    requires ValidConfig(c) && Commits(c, n, y) && Finalizable(c, n.finalized) && Found(c, n, y) && Exactly(c, n.saved)
    requires InRoundOf(c, b, y.block) && InRounds(c, b.parent) && Exactly(c, saved) && Concluded(c, saved, b.parent.parent)
    requires SearchStart(c, n.finalized) <= m < Number(Commit(c, n, y).finalized) && Multiple(c, m)
    ensures QualityReached(c, saved, m, b.parent, quality) < y.state.quality - 1
  {
    EndedBelow(c, n, y, b, m);
    SameBelow(b, y.block, m + c.epoch - 1);
    SameSaved(c, saved, n.saved, b.parent.parent, y.block.parent, m + c.epoch - 1);
  }

  lemma {:induction false} RoundStart(c: Config, b: Id, y: Id)
    requires ValidConfig(c) && InRoundOf(c, b, y)
    ensures Checkpoint(c, Number(y)) <= Number(b) <= Number(y)
  {
  }

  lemma {:induction false} SameBelow(b: Id, y: Id, e: nat)
    requires b.Child? && b.parent.Child? && y.Child? && IsAncestor(b, y) && e < Number(b.parent)
    ensures Ancestor(b.parent, e) == Ancestor(b.parent.parent, e) == Ancestor(y, e) == Ancestor(y.parent, e)
  {
    ParentOn(b, y);
    AncestorTwice(y, Number(b.parent), e);
  }

  lemma {:induction false} SearchStartLow(c: Config, finalized: Id)
    requires ValidConfig(c) && Finalizable(c, finalized)
    ensures c.finality <= SearchStart(c, finalized) + c.epoch - 1
  {
  }

  // ---------- Two finalizations ----------

  /**
   * Two steps finalize conflicting checkpoints. A signer has a cast in the round of the first, and later votes COM in the
   * round of the second, as the rule lets it. Then the second has the higher quality: at equal qualities, and for the
   * later vote at a lower one, every common COM signer has broken the rule.
   */
  lemma {:induction false} LaterFinalizationIsHigher(
    c: Config, m: Node, x: Step, n: Node, y: Step, finalized: Id, casts: map<Id, nat>,
    a: Id, saved: Saved, stx: BftState, b: Id, saved': Saved, sty: BftState)
    requires ValidConfig(c) && Commits(c, m, x) && Finalizable(c, m.finalized) && Found(c, m, x) && Exactly(c, m.saved)
    requires Commits(c, n, y) && Finalizable(c, n.finalized) && Found(c, n, y) && Exactly(c, n.saved)
    requires !OnOneChain(Commit(c, m, x).finalized, Commit(c, n, y).finalized)
    requires HasCast(c, casts, x.block, a, saved, stx) && Number(finalized) <= Number(CheckpointOf(c, x.block))
    requires InRoundOf(c, b, y.block) && VotesOn(c, finalized, casts, saved', b.parent, sty)
    requires SearchStart(c, n.finalized) <= Number(RecentJustified(c, saved', finalized, b.parent, sty).value)
    ensures x.state.quality < y.state.quality
  {
    var fx, recent := Commit(c, m, x).finalized, RecentJustified(c, saved', finalized, b.parent, sty).value;
    CastOnBranch(c, m, x, casts, a, saved, stx);
    VoteOnBranch(c, n, y, finalized, casts, b, saved', sty);
    if OnOneChain(recent, fx) {
      ConflictGrows(Commit(c, n, y).finalized, recent, fx);
    }
    CastLocks(fx, CheckpointOf(c, x.block), finalized, casts, recent, sty.quality);
  }

  lemma {:induction false} CastOnBranch(c: Config, m: Node, x: Step, casts: map<Id, nat>, a: Id, saved: Saved, st: BftState)
    requires ValidConfig(c) && Commits(c, m, x) && Finalizable(c, m.finalized) && Found(c, m, x) && Exactly(c, m.saved)
    requires HasCast(c, casts, x.block, a, saved, st)
    ensures IsAncestor(Commit(c, m, x).finalized, CheckpointOf(c, x.block)) && x.state.quality <= casts[CheckpointOf(c, x.block)] + 1
  {
    ConcludedBase(c, m.saved, x.block);
    CastQuality(c, a, saved, st, x.block, m.saved, x.state);
    FinalizedSpec(c, m, x);
    AncestorsNested(Commit(c, m, x).finalized, CheckpointOf(c, x.block), x.block);
  }

  lemma {:induction false} VoteOnBranch(c: Config, n: Node, y: Step, finalized: Id, casts: map<Id, nat>, b: Id, saved: Saved, st: BftState)
    requires ValidConfig(c) && Commits(c, n, y) && Finalizable(c, n.finalized) && Found(c, n, y) && Exactly(c, n.saved)
    requires InRoundOf(c, b, y.block) && VotesOn(c, finalized, casts, saved, b.parent, st)
    requires SearchStart(c, n.finalized) <= Number(RecentJustified(c, saved, finalized, b.parent, st).value)
    ensures IsAncestor(Commit(c, n, y).finalized, RecentJustified(c, saved, finalized, b.parent, st).value)
    ensures st.quality <= y.state.quality
  {
    ConcludedBase(c, n.saved, y.block);
    CommittedQuality(c, n.saved, y);
    HeadQuality(c, b.parent, saved, st, b, y.block, n.saved, y.state);
    RecentNotBelow(c, n, y, finalized, casts, saved, b, st);
  }

  lemma {:induction false} CommittedQuality(c: Config, saved: Saved, y: Step)
    requires ValidConfig(c) && IsAnswer(c, saved, y.block, Ok(y.state)) && InRounds(c, y.block) && y.state.committed
    ensures y.state.justified
  {
    AnswerQuality(c, saved, y.block, y.state);
  }
}
