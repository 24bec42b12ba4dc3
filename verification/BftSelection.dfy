/**
 * Fork choice over whole runs of a node: every arriving block is compared with the best block by the states that the
 * engine answers for the two at that time, and is then committed.
 */
module BftSelection {
  import opened Wrappers
  import opened BlockTree
  import opened BftVotes
  import opened BftRounds
  import opened BftTallies
  import opened BftAnswers
  import opened BftSearch
  import opened BftFinality
  import opened BftForkChoice

  // ---------- Runs ----------

  /** What the engine has saved and finalized, and the best block. */
  datatype View = View(node: Node, best: Id)

  /** A block, the states answered for it and for the best block when they are compared, and the state it is committed with. */
  datatype Arrival = Arrival(block: Id, state: BftState, bestState: BftState, committed: BftState)

  /** The engine decides if both blocks are past the FINALITY fork; else the better block wins. */
  predicate Replaces(c: Config, a: Arrival, best: Id) {
    if c.finality <= Number(a.block) && c.finality <= Number(best) then
      PreferredBy(a.block, a.state.quality, best, a.bestState.quality)
    else BetterThan(a.block, best)
  }

  /** The block can be committed, and all states are ones that the engine can answer. */
  ghost predicate Arrives(c: Config, v: View, a: Arrival)
    requires ValidConfig(c)
  {
    && Commits(c, v.node, Step(a.block, a.committed))
    && IsAnswer(c, v.node.saved, a.block, Ok(a.state)) && IsAnswer(c, v.node.saved, v.best, Ok(a.bestState))
  }

  /** Blocks before the fork are not committed in the engine. */
  ghost function NextNode(c: Config, node: Node, s: Step): Node
    requires ValidConfig(c)
  {
    if c.finality <= Number(s.block) then Commit(c, node, s) else node
  }

  ghost function NextView(c: Config, v: View, a: Arrival): View
    requires ValidConfig(c)
  {
    View(NextNode(c, v.node, Step(a.block, a.committed)), if Replaces(c, a, v.best) then a.block else v.best)
  }

  ghost predicate IsSelection(c: Config, v: View, run: seq<Arrival>)
    requires ValidConfig(c)
    decreases |run|
  {
    run != [] ==> Arrives(c, v, run[0]) && IsSelection(c, NextView(c, v, run[0]), run[1..])
  }

  /** The view at the end of a run. */
  ghost function EndView(c: Config, v: View, run: seq<Arrival>): View
    requires ValidConfig(c)
    decreases |run|
  {
    if run == [] then v else EndView(c, NextView(c, v, run[0]), run[1..])
  }

  function BlocksOf(run: seq<Arrival>): (bs: seq<Id>)
    ensures |bs| == |run|
  {
    seq(|run|, i requires 0 <= i < |run| => run[i].block)
  }

  // ---------- What every step keeps ----------

  /** Saved qualities are sound, and the answers for the best block have their base. */
  ghost predicate ViewSound(c: Config, v: View)
    requires ValidConfig(c)
  {
    SavedSound(c, v.node.saved) && Based(c, v.node.saved, v.best)
  }

  lemma {:induction false} BasedGrows(c: Config, saved: Saved, more: Saved, b: Id)
    requires ValidConfig(c) && Based(c, saved, b) && forall x :: x in saved ==> x in more
    ensures Based(c, more, b)
  {
  }

  lemma {:induction false} SoundNext(c: Config, v: View, a: Arrival)
    requires ValidConfig(c) && ViewSound(c, v) && Arrives(c, v, a)
    ensures ViewSound(c, NextView(c, v, a)) && Based(c, v.node.saved, a.block)
  {
    CommitKeepsSound(c, v.node, Step(a.block, a.committed));
    ConcludedBase(c, v.node.saved, a.block);
    BasedGrows(c, v.node.saved, NextView(c, v, a).node.saved, a.block);
    BasedGrows(c, v.node.saved, NextView(c, v, a).node.saved, v.best);
  }

  lemma {:induction false} ExactNext(c: Config, v: View, a: Arrival)
    requires ValidConfig(c) && ViewSound(c, v) && SavedExact(c, v.node.saved) && Arrives(c, v, a) && StableBlock(c, a.block)
    ensures SavedExact(c, NextView(c, v, a).node.saved)
  {
    CommitKeepsExact(c, v.node, Step(a.block, a.committed));
  }

  /** The arrival of a block, with states from scratch. */
  ghost function FromScratch(c: Config, best: Id, b: Id): Arrival
    requires ValidConfig(c) && StateOf(c, b).Ok? && StateOf(c, best).Ok?
  {
    Arrival(b, StateOf(c, b).value, StateOf(c, best).value, StateOf(c, b).value)
  }

  /** On exact saved qualities, the state from scratch is an answer. */
  lemma {:induction false} ScratchAnswer(c: Config, saved: Saved, b: Id)
    requires ValidConfig(c) && SavedSound(c, saved) && SavedExact(c, saved) && Based(c, saved, b)
    ensures IsAnswer(c, saved, b, StateOf(c, b))
  {
    SavedChildren(c, saved);
    ExactSavedBase(c, saved, b);
    if InRounds(c, b) {
      ScratchState(c, saved, b);
      assert InTally(c, b, Number(b));
    }
  }

  // ---------- Stable rounds ----------

  /** The block is past the fork, and no weight changes in its round. */
  ghost predicate Steady(c: Config, b: Id)
    requires ValidConfig(c)
  {
    c.finality <= Number(b) && StableBlock(c, b)
  }

  /** A run that starts on exact qualities, and whose blocks are steady. */
  ghost predicate SteadySelection(c: Config, v: View, run: seq<Arrival>)
    requires ValidConfig(c)
  {
    && ViewSound(c, v) && SavedExact(c, v.node.saved) && IsSelection(c, v, run)
    && Steady(c, v.best) && forall i :: 0 <= i < |run| ==> Steady(c, run[i].block)
  }

  /** A steady block is compared with a steady best block by qualities from scratch. */
  lemma {:induction false} SteadyStep(c: Config, v: View, a: Arrival)
    requires ValidConfig(c) && ViewSound(c, v) && SavedExact(c, v.node.saved) && Arrives(c, v, a)
    requires Steady(c, v.best) && Steady(c, a.block)
    ensures ViewSound(c, NextView(c, v, a)) && SavedExact(c, NextView(c, v, a).node.saved) && StateOf(c, a.block).Ok?
    ensures NextView(c, v, a).best == if Preferred(c, a.block, v.best) then a.block else v.best
  {
    SoundNext(c, v, a);
    ExactNext(c, v, a);
    AnswerExact(c, v.node.saved, a.block, a.state);
    AnswerExact(c, v.node.saved, v.best, a.bestState);
  }

  lemma {:induction false} SteadyNext(c: Config, v: View, run: seq<Arrival>)
    requires ValidConfig(c) && SteadySelection(c, v, run) && run != []
    ensures SteadySelection(c, NextView(c, v, run[0]), run[1..]) && StateOf(c, run[0].block).Ok?
    ensures NextView(c, v, run[0]).best == if Preferred(c, run[0].block, v.best) then run[0].block else v.best
  {
    SteadyStep(c, v, run[0]);
  }

  lemma {:induction false} BlocksRest(run: seq<Arrival>)
    requires run != []
    ensures BlocksOf(run)[0] == run[0].block && BlocksOf(run)[1..] == BlocksOf(run[1..])
  {
  }

  /** In stable rounds every run ends at the best block by qualities from scratch. */
  lemma {:induction false} SelectionIsBest(c: Config, v: View, run: seq<Arrival>)
    requires ValidConfig(c) && SteadySelection(c, v, run)
    ensures EndView(c, v, run).best == BestAfter(c, v.best, BlocksOf(run))
    ensures forall i :: 0 <= i < |run| ==> StateOf(c, run[i].block).Ok?
    decreases |run|
  {
    if run != [] {
      SteadyNext(c, v, run);
      BlocksRest(run);
      SelectionIsBest(c, NextView(c, v, run[0]), run[1..]);
    }
  }

  /**
   * It is the maximum of all blocks seen. Any other block has a lower quality; or the same and a lower total score; or the
   * same and a higher number; or the same and a greater digest.
   */
  lemma {:induction false} SelectionIsMaximum(c: Config, v: View, run: seq<Arrival>)
    requires ValidConfig(c) && SteadySelection(c, v, run) && DistinctIds({v.best} + set b | b in BlocksOf(run))
    ensures IsMaximum(c, EndView(c, v, run).best, {v.best} + set b | b in BlocksOf(run))
    ensures var best := EndView(c, v, run).best;
            forall b :: b != best && (b == v.best || b in BlocksOf(run)) ==>
              && QualityOf(c, b) <= QualityOf(c, best)
              && (QualityOf(c, b) == QualityOf(c, best) ==> b.header.totalScore <= best.header.totalScore)
              && (QualityOf(c, b) == QualityOf(c, best) && b.header.totalScore == best.header.totalScore ==>
                    Number(best) < Number(b) || (Number(best) == Number(b) && best.digest < b.digest))
  {
    SelectionIsBest(c, v, run);
    BestIsMaximum(c, v.best, BlocksOf(run));
    var best := EndView(c, v, run).best;
    assert forall b :: b != best && (b == v.best || b in BlocksOf(run)) ==> Preferred(c, best, b);
  }

  /** Two nodes that start at one best block and see the same blocks, in whatever order, end at one best block. */
  lemma {:induction false} SelectionConfluent(c: Config, v: View, xs: seq<Arrival>, w: View, ys: seq<Arrival>)
    requires ValidConfig(c) && SteadySelection(c, v, xs) && SteadySelection(c, w, ys) && v.best == w.best
    requires DistinctIds({v.best} + set b | b in BlocksOf(xs)) && forall b :: b in BlocksOf(xs) <==> b in BlocksOf(ys)
    ensures EndView(c, v, xs).best == EndView(c, w, ys).best
  {
    SelectionIsBest(c, v, xs);
    SelectionIsBest(c, w, ys);
    ForkChoiceConfluent(c, v.best, BlocksOf(xs), BlocksOf(ys));
  }

  lemma {:induction false} SteadyMember(c: Config, v: View, run: seq<Arrival>, x: Id)
    requires ValidConfig(c) && SteadySelection(c, v, run) && x in BlocksOf(run)
    ensures StableBlock(c, x) && StateOf(c, x).Ok?
  {
    SelectionIsBest(c, v, run);
    var i :| 0 <= i < |run| && BlocksOf(run)[i] == x;
    assert Steady(c, run[i].block);
  }

  /** Every block but the first arrives together with its parent, which has a lower total score. */
  ghost predicate Connected(first: Id, bs: set<Id>) {
    forall b :: b in bs && b != first ==> b.Child? && b.parent in bs && b.parent.header.totalScore < b.header.totalScore
  }

  /** In stable rounds, the best block is never a strict ancestor of a block that has arrived. */
  lemma {:induction false} SelectionNotBehind(c: Config, v: View, run: seq<Arrival>, bs: set<Id>, b: Id)
    requires ValidConfig(c) && SteadySelection(c, v, run) && bs == {v.best} + set x | x in BlocksOf(run)
    requires DistinctIds(bs) && Connected(v.best, bs) && b in bs
    ensures !StrictAncestor(EndView(c, v, run).best, b)
  {
    SelectionIsBest(c, v, run);
    forall x | x in bs && x != v.best ensures StableBlock(c, x) && StateOf(c, x).Ok? {
      SteadyMember(c, v, run, x);
    }
    StableIsRising(c, v.best, bs);
    BestNotBehind(c, v.best, BlocksOf(run), bs, b);
  }

  // ---------- A chain that grows ----------

  /** Nothing saved, and genesis is finalized and best. */
  ghost function Start(genesis: Id): View {
    View(Node(map[], genesis), genesis)
  }

  /** The blocks up to `b`, without genesis. */
  function ChainUpTo(b: Id): seq<Id> {
    if b.Genesis? then [] else ChainUpTo(b.parent) + [b]
  }

  /** A run in which the blocks up to `b` arrive one by one. */
  ghost predicate GrowsTo(c: Config, b: Id, run: seq<Arrival>)
    requires ValidConfig(c)
  {
    IsSelection(c, Start(Root(b)), run) && BlocksOf(run) == ChainUpTo(b)
  }

  ghost function ViewOf(c: Config, b: Id, run: seq<Arrival>): View
    requires ValidConfig(c)
  {
    EndView(c, Start(Root(b)), run)
  }

  /** In every such run, `b` is the best block at the end; and so is every ancestor when it arrives. */
  ghost predicate BestFollows(c: Config, b: Id)
    requires ValidConfig(c)
  {
    && (forall run :: GrowsTo(c, b, run) ==> ViewOf(c, b, run).best == b)
    && (b.Child? ==> BestFollows(c, b.parent))
  }

  /** The quality of `st` is not below that of `before`, if both can be answered for the block and its parent. */
  ghost predicate Keeps(c: Config, saved: Saved, b: Id, st: BftState, before: BftState)
    requires ValidConfig(c) && b.Child?
  {
    IsAnswer(c, saved, b, Ok(st)) && IsAnswer(c, saved, b.parent, Ok(before)) ==> before.quality <= st.quality
  }

  /** In every run up to the parent of `b`, no answer for `b` has a lower quality than an answer for the parent; and so for all ancestors. */
  ghost predicate AnswersHold(c: Config, b: Id)
    requires ValidConfig(c)
  {
    b.Child? ==>
      && (forall run, st, before :: GrowsTo(c, b.parent, run) ==> Keeps(c, ViewOf(c, b.parent, run).node.saved, b, st, before))
      && AnswersHold(c, b.parent)
  }

  ghost predicate ScoresRise(b: Id) {
    b.Child? ==> b.parent.header.totalScore < b.header.totalScore && ScoresRise(b.parent)
  }

  lemma {:induction false} SelectionAppend(c: Config, v: View, run: seq<Arrival>, a: Arrival)
    requires ValidConfig(c)
    ensures IsSelection(c, v, run + [a]) <==> IsSelection(c, v, run) && Arrives(c, EndView(c, v, run), a)
    ensures EndView(c, v, run + [a]) == NextView(c, EndView(c, v, run), a)
    decreases |run|
  {
    if run == [] {
      assert [] + [a] == [a] && [a][1..] == [];
    } else {
      assert (run + [a])[1..] == run[1..] + [a];
      SelectionAppend(c, NextView(c, v, run[0]), run[1..], a);
    }
  }

  lemma {:induction false} BlocksAppend(run: seq<Arrival>, a: Arrival)
    ensures BlocksOf(run + [a]) == BlocksOf(run) + [a.block]
  {
  }

  /** A run up to `b` is a run up to the parent and the arrival of `b`. */
  lemma {:induction false} LastArrival(c: Config, b: Id, run: seq<Arrival>) returns (before: seq<Arrival>, a: Arrival)
    requires ValidConfig(c) && b.Child? && GrowsTo(c, b, run)
    ensures GrowsTo(c, b.parent, before) && a.block == b && Arrives(c, ViewOf(c, b.parent, before), a)
    ensures ViewOf(c, b, run) == NextView(c, ViewOf(c, b.parent, before), a)
  {
    var n := |run| - 1;
    assert |BlocksOf(run)| == |ChainUpTo(b.parent)| + 1;
    before, a := run[..n], run[n];
    assert run == before + [a];
    BlocksAppend(before, a);
    SelectionAppend(c, Start(Root(b)), before, a);
    assert BlocksOf(before) == BlocksOf(run)[..n] && ChainUpTo(b.parent) == ChainUpTo(b)[..n];
  }

  /** What holds of the node once the chain of `b` has arrived. */
  ghost predicate Grown(c: Config, node: Node, b: Id)
    requires ValidConfig(c)
  {
    && SavedSound(c, node.saved) && Concluded(c, node.saved, b)
    && Finalizable(c, node.finalized) && IsAncestor(node.finalized, b) && Root(node.finalized) == Root(b)
    && forall x :: x in node.saved ==> IsAncestor(x, b)
  }

  lemma {:induction false} StillAncestor(x: Id, b: Id)
    requires b.Child? && IsAncestor(x, b.parent)
    ensures IsAncestor(x, b)
  {
    assert Ancestor(b, Number(x)) == Ancestor(b.parent, Number(x));
  }

  /** Every answer for the next block of the chain can be committed. */
  lemma {:induction false} GrownCommits(c: Config, node: Node, b: Id, st: BftState)
    requires ValidConfig(c) && b.Child? && Grown(c, node, b.parent) && IsAnswer(c, node.saved, b, Ok(st))
    ensures Commits(c, node, Step(b, st))
  {
    assert b in node.saved ==> IsAncestor(b, b.parent);
  }

  lemma {:induction false} FinalizedOnChain(c: Config, saved: Saved, finalized: Id, b: Id, st: BftState)
    requires ValidConfig(c) && b.Child? && Finalizable(c, finalized) && IsAncestor(finalized, b.parent)
    ensures IsAncestor(NextFinalized(c, saved, finalized, b, st), b)
  {
    StillAncestor(finalized, b);
    if Finalizes(c, b, st) && CheckpointFor(c, saved, st.quality - 1, SearchStart(c, finalized), b).Ok? {
      CheckpointForIsFirst(c, saved, st.quality - 1, SearchStart(c, finalized), b);
    }
  }

  lemma {:induction false} GrownNext(c: Config, node: Node, s: Step)
    requires ValidConfig(c) && s.block.Child? && Grown(c, node, s.block.parent) && Commits(c, node, s)
    ensures Grown(c, NextNode(c, node, s), s.block)
  {
    var b, next := s.block, NextNode(c, node, s);
    CommitKeepsSound(c, node, s);
    ConcludedNext(c, node.saved, next.saved, b);
    FinalityAdvances(c, next.saved, node.finalized, b, s.state);
    FinalizedOnChain(c, next.saved, node.finalized, b, s.state);
    StillAncestor(node.finalized, b);
    forall x | x in next.saved ensures IsAncestor(x, b) {
      if x != b {
        StillAncestor(x, b);
      }
    }
  }

  lemma {:induction false} RunGrown(c: Config, b: Id, run: seq<Arrival>)
    requires ValidConfig(c) && GrowsTo(c, b, run)
    ensures Grown(c, ViewOf(c, b, run).node, b)
  {
    if b.Child? {
      var before, a := LastArrival(c, b, run);
      RunGrown(c, b.parent, before);
      GrownNext(c, ViewOf(c, b.parent, before).node, Step(b, a.committed));
    }
  }

  /** Any answers for the next block and the best block make an arrival. */
  lemma {:induction false} GrowOne(c: Config, a: Arrival, run: seq<Arrival>)
    requires ValidConfig(c) && a.block.Child? && GrowsTo(c, a.block.parent, run)
    requires var v := ViewOf(c, a.block.parent, run);
             && IsAnswer(c, v.node.saved, a.block, Ok(a.state)) && IsAnswer(c, v.node.saved, a.block, Ok(a.committed))
             && IsAnswer(c, v.node.saved, v.best, Ok(a.bestState))
    ensures GrowsTo(c, a.block, run + [a]) && ViewOf(c, a.block, run + [a]) == NextView(c, ViewOf(c, a.block.parent, run), a)
  {
    RunGrown(c, a.block.parent, run);
    GrownCommits(c, ViewOf(c, a.block.parent, run).node, a.block, a.committed);
    SelectionAppend(c, Start(Root(a.block)), run, a);
    BlocksAppend(run, a);
  }

  /** The next block replaces its parent exactly if it does not lose quality, on either side of the fork. */
  lemma {:induction false} ReplacesParentIff(c: Config, saved: Saved, a: Arrival)
    requires ValidConfig(c) && a.block.Child? && a.block.parent.header.totalScore < a.block.header.totalScore
    requires IsAnswer(c, saved, a.block.parent, Ok(a.bestState))
    ensures Replaces(c, a, a.block.parent) <==> a.bestState.quality <= a.state.quality
  {
    ChildPreferredIff(a.block, a.state.quality, a.bestState.quality);
  }

  lemma {:induction false} FollowsNext(c: Config, b: Id, run: seq<Arrival>)
    requires ValidConfig(c) && b.Child? && ScoresRise(b) && BestFollows(c, b.parent) && AnswersHold(c, b) && GrowsTo(c, b, run)
    ensures ViewOf(c, b, run).best == b
  {
    var before, a := LastArrival(c, b, run);
    var v := ViewOf(c, b.parent, before);
    ReplacesParentIff(c, v.node.saved, a);
    assert Keeps(c, v.node.saved, b, a.state, a.bestState);
  }

  lemma {:induction false} HoldsNext(c: Config, b: Id, run: seq<Arrival>, st: BftState, before: BftState)
    requires ValidConfig(c) && b.Child? && ScoresRise(b) && BestFollows(c, b) && GrowsTo(c, b.parent, run)
    ensures Keeps(c, ViewOf(c, b.parent, run).node.saved, b, st, before)
  {
    var v := ViewOf(c, b.parent, run);
    if IsAnswer(c, v.node.saved, b, Ok(st)) && IsAnswer(c, v.node.saved, b.parent, Ok(before)) {
      var a := Arrival(b, st, before, st);
      GrowOne(c, a, run);
      assert GrowsTo(c, b, run + [a]);
      ReplacesParentIff(c, v.node.saved, a);
    }
  }

  /**
   * As a chain with rising scores arrives block by block, each block becomes the best in turn in every run, if and only
   * if no answer for a block has a lower quality than an answer for its parent.
   */
  lemma {:induction false} BestFollowsIff(c: Config, b: Id)
    requires ValidConfig(c) && ScoresRise(b)
    ensures BestFollows(c, b) <==> AnswersHold(c, b)
  {
    if b.Genesis? {
      forall run | GrowsTo(c, b, run) ensures ViewOf(c, b, run).best == b {
        assert run == [];
      }
    } else {
      BestFollowsIff(c, b.parent);
      if BestFollows(c, b.parent) && AnswersHold(c, b) {
        forall run | GrowsTo(c, b, run) ensures ViewOf(c, b, run).best == b {
          FollowsNext(c, b, run);
        }
      }
      if BestFollows(c, b) {
        forall run, st, before | GrowsTo(c, b.parent, run) ensures Keeps(c, ViewOf(c, b.parent, run).node.saved, b, st, before) {
          HoldsNext(c, b, run, st, before);
        }
      }
    }
  }

  ghost predicate StableChain(c: Config, b: Id)
    requires ValidConfig(c)
  {
    StableBlock(c, b) && (b.Child? ==> StableChain(c, b.parent))
  }

  lemma {:induction false} RunExact(c: Config, b: Id, run: seq<Arrival>)
    requires ValidConfig(c) && StableChain(c, b) && GrowsTo(c, b, run)
    ensures SavedExact(c, ViewOf(c, b, run).node.saved)
  {
    if b.Child? {
      var before, a := LastArrival(c, b, run);
      RunExact(c, b.parent, before);
      RunGrown(c, b.parent, before);
      CommitKeepsExact(c, ViewOf(c, b.parent, before).node, Step(b, a.committed));
    }
  }

  /** If no weight changes within the rounds of the chain, no answer loses quality. */
  lemma {:induction false} StableAnswersHold(c: Config, b: Id)
    requires ValidConfig(c) && StableChain(c, b)
    ensures AnswersHold(c, b)
  {
    if b.Child? {
      StableAnswersHold(c, b.parent);
      forall run, st, before | GrowsTo(c, b.parent, run) ensures Keeps(c, ViewOf(c, b.parent, run).node.saved, b, st, before) {
        var saved := ViewOf(c, b.parent, run).node.saved;
        if IsAnswer(c, saved, b, Ok(st)) && IsAnswer(c, saved, b.parent, Ok(before)) {
          RunExact(c, b.parent, run);
          RunGrown(c, b.parent, run);
          StableKeeps(c, saved, b, st, before);
        }
      }
    }
  }

  lemma {:induction false} StableKeeps(c: Config, saved: Saved, b: Id, st: BftState, before: BftState)
    requires ValidConfig(c) && b.Child? && StableBlock(c, b) && StableBlock(c, b.parent)
    requires SavedSound(c, saved) && SavedExact(c, saved) && Concluded(c, saved, b.parent)
    requires IsAnswer(c, saved, b, Ok(st)) && IsAnswer(c, saved, b.parent, Ok(before))
    ensures before.quality <= st.quality
  {
    ConcludedBase(c, saved, b);
    ConcludedOwnBase(c, saved, b.parent);
    AnswerExact(c, saved, b, st);
    AnswerExact(c, saved, b.parent, before);
    QualityNeverDrops(c, b);
  }
}
