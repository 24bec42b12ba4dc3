/** Finality over whole runs, and the checkpoint a vote refers to. */
module BftFinality {
  import opened Wrappers
  import opened BlockTree
  import opened BftVotes
  import opened BftRounds
  import opened BftAnswers
  import opened BftSearch

  // ---------- Finalization ----------

  /** The engine accepts children of `parent`: `parent` does not conflict with the finalized checkpoint. */
  ghost predicate Accepted(finalized: Id, parent: Id) {
    Number(finalized) == 0 || IsAncestor(finalized, parent)
  }

  /** Committing `b` with state `st` finalizes something. */
  ghost predicate Finalizes(c: Config, b: Id, st: BftState)
    requires ValidConfig(c)
  {
    InRounds(c, b) && Multiple(c, Number(b) + 1) && st.committed && st.quality > 1
  }

  /** The finalized checkpoint after committing `b` with state `st`, whose quality is saved already. */
  ghost function NextFinalized(c: Config, saved: Saved, finalized: Id, b: Id, st: BftState): Id
    requires ValidConfig(c)
  {
    if Finalizes(c, b, st) then
      match CheckpointFor(c, saved, st.quality - 1, SearchStart(c, finalized), b)
      case Ok(id) => id
      case Err(_) => finalized
    else finalized
  }

  /** Committing `b` calls for a finalization, but `b` ends the round of the finalized checkpoint itself. */
  ghost predicate FinalizationFails(c: Config, finalized: Id, b: Id, st: BftState)
    requires ValidConfig(c)
  {
    Finalizes(c, b, st) && Number(finalized) != 0 && Checkpoint(c, Number(b)) == Number(finalized)
  }

  /** A step of finality stays on the branch of the old finalized checkpoint and does not move back. */
  lemma {:induction false} FinalityAdvances(c: Config, saved: Saved, finalized: Id, b: Id, st: BftState)
    requires ValidConfig(c) && Finalizable(c, finalized) && b.Child? && Root(b) == Root(finalized)
    requires Accepted(finalized, b.parent)
    ensures var next := NextFinalized(c, saved, finalized, b, st);
            Finalizable(c, next) && IsAncestor(finalized, next) && Root(next) == Root(finalized)
  {
    var next := NextFinalized(c, saved, finalized, b, st);
    if Finalizes(c, b, st) && CheckpointFor(c, saved, st.quality - 1, SearchStart(c, finalized), b).Ok? {
      CheckpointForIsFirst(c, saved, st.quality - 1, SearchStart(c, finalized), b);
      FoundIsLater(c, finalized, next, b);
    }
  }

  lemma {:induction false} FoundIsLater(c: Config, finalized: Id, next: Id, b: Id)
    requires ValidConfig(c) && Root(b) == Root(finalized) && b.Child? && Accepted(finalized, b.parent)
    requires SearchStart(c, finalized) <= Number(next) <= Number(b) && next == Ancestor(b, Number(next))
    ensures IsAncestor(finalized, next) && Root(next) == Root(finalized)
  {
    RootOfAncestor(b, Number(next));
    if Number(finalized) == 0 {
      RootIsAncestor(next);
    } else {
      AncestorsNested(finalized, next, b);
    }
  }

  lemma {:induction false} RootOfAncestor(b: Id, n: nat)
    requires n <= Number(b)
    ensures Root(Ancestor(b, n)) == Root(b)
  {
    if Number(b) != n {
      RootOfAncestor(b.parent, n);
    }
  }

  /** The state `st` was an answer for `b`, and its quality is saved. */
  ghost predicate Settled(c: Config, saved: Saved, b: Id, st: BftState)
    requires ValidConfig(c)
  {
    InRounds(c, b) && b in saved && saved[b] == st.quality && IsAnswer(c, saved, b, Ok(st))
  }

  /**
   * The search for the checkpoint to finalize succeeds, if and only if the block that ends the
   * round is not in the round of the finalized checkpoint itself.
   */
  lemma {:induction false} FinalizationFoundIff(c: Config, saved: Saved, finalized: Id, b: Id, st: BftState)
    requires ValidConfig(c) && Finalizable(c, finalized) && Finalizes(c, b, st) && Known(c, saved, b) && Settled(c, saved, b, st)
    requires Accepted(finalized, b.parent)
    ensures CheckpointFor(c, saved, st.quality - 1, SearchStart(c, finalized), b).Ok? <==> !FinalizationFails(c, finalized, b, st)
  {
    var start := SearchStart(c, finalized);
    StartInRange(c, finalized, b);
    CheckpointFoundIff(c, saved, st.quality - 1, start, b);
    FirstQualityOfSearch(c, saved, finalized, b, st);
  }

  lemma {:induction false} StartInRange(c: Config, finalized: Id, b: Id)
    requires ValidConfig(c) && Finalizable(c, finalized) && InRounds(c, b) && Multiple(c, Number(b) + 1)
    requires Accepted(finalized, b.parent)
    ensures SearchRange(c, SearchStart(c, finalized), Number(b)) && SearchStart(c, finalized) <= Number(b)
  {
  }

  lemma {:induction false} FirstQualityOfSearch(c: Config, saved: Saved, finalized: Id, b: Id, st: BftState)
    requires ValidConfig(c) && Finalizable(c, finalized) && Finalizes(c, b, st) && Known(c, saved, b) && Settled(c, saved, b, st)
    requires SearchRange(c, SearchStart(c, finalized), Number(b)) && SearchStart(c, finalized) <= Number(b)
    ensures SearchStart(c, finalized) + c.epoch - 1 <= Number(b)
    ensures QualityAt(c, saved, SearchStart(c, finalized), b) < st.quality <==> !FinalizationFails(c, finalized, b, st)
  {
    var start := SearchStart(c, finalized);
    RoundFits(c, start, Number(b));
    EndsRound(c, Number(b));
    if Number(finalized) == 0 {
      FirstQuality(c, saved, b);
    } else if Checkpoint(c, Number(b)) != start {
      EarlierQuality(c, saved, start, b, st);
    }
  }

  /** A committed round has a higher quality than all rounds before it. */
  lemma {:induction false} EarlierQuality(c: Config, saved: Saved, n: nat, b: Id, st: BftState)
    requires ValidConfig(c) && Finalizes(c, b, st) && Known(c, saved, b) && Settled(c, saved, b, st) && SearchRange(c, n, Number(b))
    requires n <= Number(b) && n != Checkpoint(c, Number(b))
    ensures n + c.epoch - 1 <= Number(b)
    ensures QualityAt(c, saved, n, b) < st.quality
  {
    var last := Checkpoint(c, Number(b));
    EndsRound(c, Number(b));
    MultiplesApart(c, last, n);
    MultiplesApart(c, n, last);
    PreviousOf(c, saved, last, b, st);
    QualityMonotone(c, saved, n, last - c.epoch, b);
  }

  lemma {:induction false} PreviousOf(c: Config, saved: Saved, last: nat, b: Id, st: BftState)
    requires ValidConfig(c) && Settled(c, saved, b, st) && st.committed
    requires last == Checkpoint(c, Number(b)) && Checkpoint(c, c.finality) + c.epoch <= last
    ensures Multiple(c, last - c.epoch) && last - 1 <= Number(b)
    ensures QualityAt(c, saved, last - c.epoch, b) < st.quality
  {
    MultipleStep(c, last);
    AnswerQuality(c, saved, b, st);
    assert Ancestor(b, last - 1) == LastBefore(c, b);
  }

  // ---------- Votes ----------

  /** The most recent justified checkpoint on the chain of `parent`, whose state is `st`, or an error. */
  ghost function RecentJustified(c: Config, saved: Saved, finalized: Id, parent: Id, st: BftState): Result<Id, Error>
    requires ValidConfig(c)
  {
    var n := Checkpoint(c, Number(parent));
    if st.justified then Ok(Ancestor(parent, n))
    else if n == 0 || n - 1 < SearchStart(c, finalized) then Err(NotOnChain)
    else CheckpointFor(c, saved, st.quality, SearchStart(c, finalized), Ancestor(parent, n - 1))
  }

  /** The quality that the round starting at `n` has reached on the chain of `head`, whose own quality is `quality`. */
  ghost function QualityReached(c: Config, saved: Saved, n: nat, head: Id, quality: nat): nat
    requires ValidConfig(c)
  {
    if n + c.epoch - 1 < Number(head) then QualityAt(c, saved, n, head) else quality
  }

  /**
   * Whichever way it is determined, the checkpoint voted for is the first one from the search start
   * on whose round reaches the quality of the head.
   */
  lemma {:induction false} RecentJustifiedIsFirst(c: Config, saved: Saved, finalized: Id, parent: Id, st: BftState)
    requires ValidConfig(c) && Finalizable(c, finalized) && InRounds(c, parent) && Known(c, saved, parent.parent)
    requires IsAnswer(c, saved, parent, Ok(st)) && RecentJustified(c, saved, finalized, parent, st).Ok?
    ensures var id := RecentJustified(c, saved, finalized, parent, st).value;
            && IsAncestor(id, parent) && Multiple(c, Number(id))
            && QualityReached(c, saved, Number(id), parent, st.quality) == st.quality
            && forall m :: SearchStart(c, finalized) <= m < Number(id) && Multiple(c, m) ==>
                 QualityReached(c, saved, m, parent, st.quality) < st.quality
  {
    var n := Checkpoint(c, Number(parent));
    var start := SearchStart(c, finalized);
    if st.justified {
      forall m | start <= m < n && Multiple(c, m) ensures QualityReached(c, saved, m, parent, st.quality) < st.quality {
        EarlierThanJustified(c, saved, m, parent, st);
      }
    } else {
      LastJustifiedIsFirst(c, saved, start, parent, n, st.quality);
    }
  }

  lemma {:induction false} LastJustifiedIsFirst(c: Config, saved: Saved, start: nat, parent: Id, n: nat, target: nat)
    requires ValidConfig(c) && Multiple(c, start) && 0 < n <= Number(parent)
    requires CheckpointFor(c, saved, target, start, Ancestor(parent, n - 1)).Ok?
    ensures var id := CheckpointFor(c, saved, target, start, Ancestor(parent, n - 1)).value;
            && IsAncestor(id, parent) && Multiple(c, Number(id))
            && QualityReached(c, saved, Number(id), parent, target) == target
            && forall m :: start <= m < Number(id) && Multiple(c, m) ==> QualityReached(c, saved, m, parent, target) < target
  {
    var prev := Ancestor(parent, n - 1);
    CheckpointForIsFirst(c, saved, target, start, prev);
    var id := CheckpointFor(c, saved, target, start, prev).value;
    AncestorTwice(parent, n - 1, Number(id));
    SameQuality(c, saved, Number(id), n - 1, parent, target);
    forall m | start <= m < Number(id) && Multiple(c, m) ensures QualityReached(c, saved, m, parent, target) < target {
      SameQuality(c, saved, m, n - 1, parent, target);
    }
  }

  lemma {:induction false} SameQuality(c: Config, saved: Saved, m: nat, s: nat, parent: Id, quality: nat)
    requires ValidConfig(c) && m + c.epoch - 1 <= s < Number(parent)
    ensures QualityReached(c, saved, m, parent, quality) == QualityAt(c, saved, m, Ancestor(parent, s))
  {
    AncestorTwice(parent, s, m + c.epoch - 1);
  }

  /** A justified round has a higher quality than the rounds before it. */
  lemma {:induction false} EarlierThanJustified(c: Config, saved: Saved, m: nat, parent: Id, st: BftState)
    requires ValidConfig(c) && InRounds(c, parent) && Known(c, saved, parent.parent)
    requires IsAnswer(c, saved, parent, Ok(st)) && st.justified
    requires Multiple(c, m) && Checkpoint(c, c.finality) <= m < Checkpoint(c, Number(parent))
    ensures QualityReached(c, saved, m, parent, st.quality) < st.quality
  {
    var n := Checkpoint(c, Number(parent));
    EpochBefore(c, m, n);
    AnswerQuality(c, saved, parent, st);
    var prev := Ancestor(parent.parent, n - 1);
    assert prev == LastBefore(c, parent) == Ancestor(parent, n - 1);
    ConcludedBelow(c, saved, parent.parent, n - 1);
    LastQuality(c, saved, m, prev);
    SameQuality(c, saved, m, n - 1, parent, st.quality);
  }

  lemma {:induction false} EpochBefore(c: Config, m: nat, n: nat)
    requires ValidConfig(c) && Multiple(c, m) && Multiple(c, n) && Checkpoint(c, c.finality) <= m < n
    ensures m + c.epoch <= n && c.finality < n && SearchRange(c, m, n - 1)
  {
    MultiplesApart(c, m, n);
  }

  /** Two checkpoints lie on one chain. */
  predicate OnOneChain(x: Id, y: Id) {
    IsAncestor(x, y) || IsAncestor(y, x)
  }

  /**
   * COM may be voted on top of a head of some quality when no cast from the finalized checkpoint on, of at least
   * that quality minus one, conflicts with the most recent justified checkpoint.
   */
  ghost predicate MayVote(finalized: Id, casts: map<Id, nat>, recent: Id, quality: nat) {
    forall x :: x in casts && Number(finalized) <= Number(x) && casts[x] + 1 >= quality ==> OnOneChain(x, recent)
  }

  // ---------- Runs ----------

  /** What the engine has saved and finalized. */
  datatype Node = Node(saved: Saved, finalized: Id)

  /** A block that was committed, and the state that the engine answered for it. */
  datatype Step = Step(block: Id, state: BftState)

  ghost function Commit(c: Config, node: Node, s: Step): Node
    requires ValidConfig(c)
  {
    if Multiple(c, Number(s.block) + 1) then
      var saved := node.saved[s.block := s.state.quality];
      Node(saved, NextFinalized(c, saved, node.finalized, s.block, s.state))
    else node
  }

  /** The block is accepted, new and on a concluded chain, and the state is one that the engine can answer. */
  ghost predicate Commits(c: Config, node: Node, s: Step)
    requires ValidConfig(c)
  {
    && s.block.Child? && Root(s.block) == Root(node.finalized) && Accepted(node.finalized, s.block.parent)
    && s.block !in node.saved && Concluded(c, node.saved, s.block.parent) && IsAnswer(c, node.saved, s.block, Ok(s.state))
  }

  ghost predicate IsRun(c: Config, node: Node, steps: seq<Step>)
    requires ValidConfig(c)
    decreases |steps|
  {
    steps != [] ==> Commits(c, node, steps[0]) && IsRun(c, Commit(c, node, steps[0]), steps[1..])
  }

  /** The nodes of a run. */
  ghost function Nodes(c: Config, node: Node, steps: seq<Step>): (ns: seq<Node>)
    requires ValidConfig(c)
    ensures |ns| == |steps| + 1 && ns[0] == node
    decreases |steps|
  {
    if steps == [] then [node] else [node] + Nodes(c, Commit(c, node, steps[0]), steps[1..])
  }

  lemma {:induction false} RunAppend(c: Config, node: Node, steps: seq<Step>, s: Step)
    requires ValidConfig(c)
    ensures var last := Nodes(c, node, steps)[|steps|];
            && (IsRun(c, node, steps + [s]) <==> IsRun(c, node, steps) && Commits(c, last, s))
            && Nodes(c, node, steps + [s]) == Nodes(c, node, steps) + [Commit(c, last, s)]
    decreases |steps|
  {
    if steps == [] {
      assert steps + [s] == [s];
      assert IsRun(c, Commit(c, node, s), [s][1..]);
    } else {
      RunAppend(c, Commit(c, node, steps[0]), steps[1..], s);
      assert (steps + [s])[1..] == steps[1..] + [s];
    }
  }

  /** A committed block keeps what is saved sound. */
  lemma {:induction false} CommitKeepsSound(c: Config, node: Node, s: Step)
    requires ValidConfig(c) && SavedSound(c, node.saved) && Commits(c, node, s)
    ensures SavedSound(c, Commit(c, node, s).saved)
  {
    if Multiple(c, Number(s.block) + 1) {
      ConcludedBase(c, node.saved, s.block);
      SavedGrows(c, node.saved, s.block, s.state);
    }
  }

  /**
   * Over every run, whatever the weights are and whichever tallies the engine kept, all finalized values are genesis
   * or checkpoints, and each is an ancestor of or equal to every later one.
   */
  lemma {:induction false} FinalityIsMonotone(c: Config, node: Node, steps: seq<Step>, i: nat, j: nat)
    requires ValidConfig(c) && Finalizable(c, node.finalized) && IsRun(c, node, steps)
    requires i <= j <= |steps|
    ensures var ns := Nodes(c, node, steps);
            Finalizable(c, ns[j].finalized) && IsAncestor(ns[i].finalized, ns[j].finalized)
    decreases |steps|
  {
    if steps != [] {
      var next := Commit(c, node, steps[0]);
      FinalityAdvances(c, next.saved, node.finalized, steps[0].block, steps[0].state);
      if j > 0 {
        FinalityIsMonotone(c, next, steps[1..], if i > 0 then i - 1 else 0, j - 1);
        if i == 0 {
          AncestorTrans(node.finalized, next.finalized, Nodes(c, node, steps)[j].finalized);
        }
      }
    }
  }

  lemma {:induction false} CommitKeepsExact(c: Config, node: Node, s: Step)
    requires ValidConfig(c) && SavedSound(c, node.saved) && SavedExact(c, node.saved) && Commits(c, node, s) && StableBlock(c, s.block)
    ensures SavedExact(c, Commit(c, node, s).saved)
  {
    ConcludedBase(c, node.saved, s.block);
    SavedStaysExact(c, node.saved, s.block, s.state);
  }

  /** Over every run, what is saved stays sound; and exact, if all rounds that end are stable. */
  lemma {:induction false} SavedOverRun(c: Config, node: Node, steps: seq<Step>, i: nat)
    requires ValidConfig(c) && SavedSound(c, node.saved) && IsRun(c, node, steps) && i <= |steps|
    ensures SavedSound(c, Nodes(c, node, steps)[i].saved)
    ensures SavedExact(c, node.saved) && (forall k :: 0 <= k < i ==> StableBlock(c, steps[k].block)) ==>
              SavedExact(c, Nodes(c, node, steps)[i].saved)
    decreases |steps|
  {
    if i > 0 {
      var s := steps[0];
      CommitKeepsSound(c, node, s);
      if SavedExact(c, node.saved) && StableBlock(c, s.block) {
        CommitKeepsExact(c, node, s);
      }
      SavedOverRun(c, Commit(c, node, s), steps[1..], i - 1);
    }
  }
}
