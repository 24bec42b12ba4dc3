/** How a node takes in a block: fork choice, the repository and the commit, in the order of the node. */
module BftProcessor {
  import opened Wrappers
  import opened BlockTree
  import opened BftVotes
  import opened BftRounds
  import opened BftAnswers
  import opened BftSearch
  import opened BftFinality
  import opened BftForkChoice
  import opened BftSelection
  import opened BftEngine

  datatype ProcessError = KnownBlock | ParentMissing | Rejected | Invalid | SelectFailed(error: Error) | CommitFailed(error: Error)

  /** The engine has no answer for `b`, whatever it saved and whichever tallies it kept. */
  ghost predicate Unanswered(c: Config, b: Id)
    requires ValidConfig(c)
  {
    && InRounds(c, b)
    && var staker := LastBefore(c, b).header.staker;
       (staker.posActive && staker.totalWeight == 0) || !Validated(c, RoundBlocks(c, b))
  }

  lemma {:induction false} AnsweredIff(c: Config, saved: Saved, b: Id, r: Result<BftState, Error>)
    requires ValidConfig(c) && IsAnswer(c, saved, b, r)
    ensures r.Err? <==> Unanswered(c, b)
  {
    if InRounds(c, b) {
      AnswerFails(c, saved, b, r);
    }
  }

  /** The chains of all blocks are concluded, and the engine has answers for them. */
  ghost predicate AllFit(c: Config, node: Node, blocks: set<Id>, best: Id)
    requires ValidConfig(c)
  {
    && best in blocks && node.saved.Keys <= blocks && SavedSound(c, node.saved) && Finalizable(c, node.finalized)
    && forall x :: x in blocks ==> Fits(c, node, x)
  }

  ghost predicate Fits(c: Config, node: Node, x: Id)
    requires ValidConfig(c)
  {
    Root(x) == Root(node.finalized) && Concluded(c, node.saved, x) && !Unanswered(c, x)
  }

  class Processor {
    const engine: Engine
    /** The blocks in the repository. */
    var blocks: set<Id>
    var best: Id

    ghost function AsView(): View
      reads this, engine
    {
      View(engine.AsNode(), best)
    }

    ghost predicate Valid()
      reads this, engine, engine.justifiers.Values
    {
      engine.Valid() && AllFit(engine.c, engine.AsNode(), blocks, best)
    }

    constructor (engine: Engine, genesis: Id)
      requires engine.Valid() && genesis.Genesis? && engine.saved == map[] && engine.finalized == genesis
      ensures Valid() && this.engine == engine && blocks == {genesis} && AsView() == Start(genesis)
    {
      this.engine, blocks, best := engine, {genesis}, genesis;
    }

    /** Whether a block becomes the best block; `a` holds the states that it was decided by. */
    method Decide(b: Id) returns (r: Result<bool, Error>, ghost a: Arrival)
      requires Valid() && b.Child? && b.parent in blocks
      modifies engine`states, engine`qualities, engine`justifiers, engine.justifiers.Values
      ensures Valid() && fresh(engine.justifiers.Values - old(engine.justifiers.Values))
      ensures r.Err? <==> Unanswered(engine.c, b) && engine.c.finality <= Number(best)
      ensures !Unanswered(engine.c, b) ==>
                && a.block == b && (r.value <==> Replaces(engine.c, a, best))
                && IsAnswer(engine.c, engine.saved, b, Ok(a.state)) && IsAnswer(engine.c, engine.saved, best, Ok(a.bestState))
      ensures Number(b) < engine.c.finality || Number(best) < engine.c.finality ==>
                && r.Ok?
                && (r.value <==>
                  || b.header.totalScore > best.header.totalScore
                  || (b.header.totalScore == best.header.totalScore && Number(b) < Number(best))
                  || (b.header.totalScore == best.header.totalScore && Number(b) == Number(best) && b.digest < best.digest))
    {
      assert Fits(engine.c, engine.AsNode(), b.parent) && Fits(engine.c, engine.AsNode(), best);
      if engine.c.finality <= Number(b) && engine.c.finality <= Number(best) {
        if best.Child? {
          ConcludedParent(engine.c, engine.saved, best);
        }
        r, a := AskEngine(b);
      } else {
        r := Ok(BetterThan(b, best));
        a := Guess(engine.c, engine.saved, b, best);
      }
    }

    method AskEngine(b: Id) returns (r: Result<bool, Error>, ghost a: Arrival)
      requires Valid() && b.Child? && Concluded(engine.c, engine.saved, b.parent)
      requires best.Child? ==> Concluded(engine.c, engine.saved, best.parent)
      modifies engine`states, engine`qualities, engine`justifiers, engine.justifiers.Values
      ensures Valid() && fresh(engine.justifiers.Values - old(engine.justifiers.Values))
      ensures r.Err? <==> Unanswered(engine.c, b)
      ensures r.Ok? ==>
                && a.block == b && (r.value <==> PreferredBy(b, a.state.quality, best, a.bestState.quality))
                && IsAnswer(engine.c, engine.saved, b, Ok(a.state)) && IsAnswer(engine.c, engine.saved, best, Ok(a.bestState))
    {
      ghost var st, bestSt;
      r, st, bestSt := engine.Select(b, best);
      AnsweredIff(engine.c, engine.saved, b, st);
      if st.Ok? {
        assert Fits(engine.c, engine.AsNode(), best);
        AnsweredIff(engine.c, engine.saved, best, bestSt);
        a := Arrival(b, st.value, bestSt.value, st.value);
      } else {
        a := Arrival(b, BftState(0, false, false), BftState(0, false, false), BftState(0, false, false));
      }
    }

    /** The block is new, fits the finalized checkpoint, is valid, and the engine has answers for it. */
    ghost predicate Taken(b: Id, valid: bool)
      requires ValidConfig(engine.c)
      reads this, engine
    {
      && b !in blocks && b.Child? && b.parent in blocks && Accepted(engine.finalized, b.parent) && valid
      && !Unanswered(engine.c, b)
    }

    /**
     * Takes in a block: every block that is taken is a step of the runs of fork choice, also if its commit fails. A block
     * that is not taken changes nothing, except for one without answers that crosses the fork.
     */
    method Process(b: Id, valid: bool) returns (r: Result<bool, ProcessError>, ghost a: Arrival)
      requires Valid() && Number(b) < U32
      modifies this, engine, engine.justifiers.Values
      ensures r == Err(KnownBlock) <==> b in old(blocks)
      ensures r == Err(ParentMissing) <==> b !in old(blocks) && !(b.Child? && b.parent in old(blocks))
      ensures old(Taken(b, valid)) ==>
                && Valid() && blocks == old(blocks) + {b} && a.block == b
                && Arrives(engine.c, old(AsView()), a) && AsView() == NextView(engine.c, old(AsView()), a)
                && (r.Ok? ==> (r.value <==> best == b))
                && (r.Err? <==> engine.c.finality <= Number(b) && FinalizationFails(engine.c, old(engine.finalized), b, a.committed))
      ensures old(!Taken(b, valid)) && !(Number(old(best)) < engine.c.finality <= Number(b) && Unanswered(engine.c, b)) ==>
                Valid() && r.Err? && blocks == old(blocks) && AsView() == old(AsView())
    {
      a := Guess(engine.c, engine.saved, b, best);
      if b in blocks {
        return Err(KnownBlock), a;
      }
      if b.Genesis? || b.parent !in blocks {
        return Err(ParentMissing), a;
      }
      var accepted := engine.Accepts(b.parent);
      if !accepted {
        return Err(Rejected), a;
      }
      if !valid {
        return Err(Invalid), a;
      }
      var becomes;
      becomes, a := Decide(b);
      if becomes.Err? {
        return Err(SelectFailed(becomes.error)), a;
      }
      r, a := Add(b, becomes.value, a);
    }

    /** Adds a block to the repository, and commits it in the engine. */
    method Add(b: Id, becomes: bool, ghost decided: Arrival) returns (r: Result<bool, ProcessError>, ghost a: Arrival)
      requires Valid() && b !in blocks && b.Child? && b.parent in blocks && Accepted(engine.finalized, b.parent) && Number(b) < U32
      requires !Unanswered(engine.c, b) ==>
                 && decided.block == b && (becomes <==> Replaces(engine.c, decided, best))
                 && IsAnswer(engine.c, engine.saved, b, Ok(decided.state)) && IsAnswer(engine.c, engine.saved, best, Ok(decided.bestState))
      modifies this, engine, engine.justifiers.Values
      ensures r != Err(KnownBlock) && r != Err(ParentMissing)
      ensures !Unanswered(engine.c, b) ==>
                && Valid() && blocks == old(blocks) + {b} && a.block == b
                && Arrives(engine.c, old(AsView()), a) && AsView() == NextView(engine.c, old(AsView()), a)
                && (r.Ok? ==> (r.value <==> best == b))
                && (r.Err? <==> engine.c.finality <= Number(b) && FinalizationFails(engine.c, old(engine.finalized), b, a.committed))
    {
      ghost var node := engine.AsNode();
      assert Fits(engine.c, node, b.parent);
      blocks := blocks + {b};
      if becomes {
        best := b;
      }
      r, a := CommitAdded(b, becomes, decided);
      if !Unanswered(engine.c, b) {
        NextFits(engine.c, node, Step(b, a.committed), old(blocks), old(best), best);
      }
    }

    /** Commits a block in the engine, if it is past the fork. */
    method CommitAdded(b: Id, becomes: bool, ghost decided: Arrival) returns (r: Result<bool, ProcessError>, ghost a: Arrival)
      requires engine.Valid() && b !in engine.saved && b.Child? && Concluded(engine.c, engine.saved, b.parent)
      requires Accepted(engine.finalized, b.parent) && Number(b) < U32
      requires !Unanswered(engine.c, b) ==> IsAnswer(engine.c, engine.saved, b, Ok(decided.state))
      modifies engine, engine.justifiers.Values
      ensures r != Err(KnownBlock) && r != Err(ParentMissing) && (r.Ok? ==> r.value == becomes)
      ensures engine.Valid() && a == decided.(committed := a.committed)
      ensures !Unanswered(engine.c, b) ==>
                && IsAnswer(engine.c, old(engine.saved), b, Ok(a.committed))
                && engine.AsNode() == NextNode(engine.c, old(engine.AsNode()), Step(b, a.committed))
                && (r.Err? <==> engine.c.finality <= Number(b) && FinalizationFails(engine.c, old(engine.finalized), b, a.committed))
    {
      a := decided.(committed := decided.state);
      if Number(b) < engine.c.finality {
        return Ok(becomes), a;
      }
      ghost var saved := engine.saved;
      var e, st, vote := engine.CommitBlock(b, false);
      AnsweredIff(engine.c, saved, b, st);
      if st.Ok? {
        a := decided.(committed := st.value);
      }
      if e.Some? {
        return Err(CommitFailed(e.value)), a;
      }
      return Ok(becomes), a;
    }
  }

  /** A new block with a concluded parent fits, and leaves all others fitting. */
  lemma {:induction false} NextFits(c: Config, node: Node, s: Step, blocks: set<Id>, best: Id, next: Id)
    requires ValidConfig(c) && AllFit(c, node, blocks, best) && s.block.Child? && s.block.parent in blocks && s.block !in blocks
    requires Accepted(node.finalized, s.block.parent) && IsAnswer(c, node.saved, s.block, Ok(s.state)) && !Unanswered(c, s.block)
    requires next == best || next == s.block
    ensures Commits(c, node, s) && AllFit(c, NextNode(c, node, s), blocks + {s.block}, next)
  {
    var b, after := s.block, NextNode(c, node, s);
    assert Fits(c, node, b.parent);
    CommitKeepsSound(c, node, s);
    FinalityAdvances(c, after.saved, node.finalized, b, s.state);
    ConcludedNext(c, node.saved, after.saved, b);
    forall x | x in blocks ensures Fits(c, after, x) {
      assert Fits(c, node, x);
    }
  }

  /** Some states that the engine could answer for the two blocks, if there are any. */
  ghost function Guess(c: Config, saved: Saved, b: Id, best: Id): (a: Arrival)
    requires ValidConfig(c)
    ensures a.block == b
    ensures !Unanswered(c, b) ==> IsAnswer(c, saved, b, Ok(a.state))
    ensures !Unanswered(c, best) ==> IsAnswer(c, saved, best, Ok(a.bestState))
  {
    var st, bestSt := SomeAnswer(c, saved, b), SomeAnswer(c, saved, best);
    AnsweredIff(c, saved, b, st);
    AnsweredIff(c, saved, best, bestSt);
    var none := BftState(0, false, false);
    Arrival(b, if st.Ok? then st.value else none, if bestSt.Ok? then bestSt.value else none, none)
  }
}
