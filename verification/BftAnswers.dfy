/**
 * The states that the engine can answer for a block: any of its tallies, on top of the quality that was
 * saved for the round before.
 */
module BftAnswers {
  import opened Wrappers
  import opened BlockTree
  import opened BftVotes
  import opened BftRounds
  import opened BftTallies

  /** Qualities saved for the blocks that ended a round. */
  type Saved = map<Id, nat>

  function SavedQuality(saved: Saved, b: Id): nat {
    if b in saved then saved[b] else 0
  }

  // ---------- States on saved qualities ----------

  /** The round of `b` is the one in which the FINALITY fork falls. */
  ghost predicate InFirstRound(c: Config, b: Id)
    requires ValidConfig(c)
  {
    Checkpoint(c, Number(b)) == Checkpoint(c, c.finality)
  }

  /** The quality that the round of `b` starts from. */
  ghost function BaseQuality(c: Config, saved: Saved, b: Id): nat
    requires ValidConfig(c) && b.Child?
  {
    if InFirstRound(c, b) then 0 else SavedQuality(saved, LastBefore(c, b))
  }

  ghost function RoundAt(c: Config, saved: Saved, b: Id): Result<Round, Error>
    requires ValidConfig(c) && b.Child?
  {
    StartRound(Checkpoint(c, Number(b)), BaseQuality(c, saved, b), LastBefore(c, b).header.staker)
  }

  /** The state of `b` by the tally that was rebuilt at height `k`. */
  ghost function StateFrom(c: Config, saved: Saved, b: Id, k: nat): Result<BftState, Error>
    requires ValidConfig(c) && InRounds(c, b) && k <= Number(b)
  {
    Outcome(RoundAt(c, saved, b), TallyFrom(c, b, k))
  }

  /** The engine can answer `r` for `b`. */
  ghost predicate IsAnswer(c: Config, saved: Saved, b: Id, r: Result<BftState, Error>)
    requires ValidConfig(c)
  {
    if InRounds(c, b) then exists k: nat :: InTally(c, b, k) && r == StateFrom(c, saved, b, k)
    else r == Ok(BftState(0, false, false))
  }

  /** Every answer has the quality the round started from, plus one exactly if it is justified. */
  lemma {:induction false} AnswerQuality(c: Config, saved: Saved, b: Id, st: BftState)
    requires ValidConfig(c) && InRounds(c, b) && IsAnswer(c, saved, b, Ok(st))
    ensures st.quality == BaseQuality(c, saved, b) + (if st.justified then 1 else 0)
    ensures st.committed ==> st.justified
  {
    var k: nat :| InTally(c, b, k) && Ok(st) == StateFrom(c, saved, b, k);
    CommittedIsJustified(RoundAt(c, saved, b).value, TallyFrom(c, b, k).value);
  }

  /** Whether there is an answer does not depend on the tally: the round must start, and all signers be validators. */
  lemma {:induction false} AnswerFails(c: Config, saved: Saved, b: Id, r: Result<BftState, Error>)
    requires ValidConfig(c) && InRounds(c, b) && IsAnswer(c, saved, b, r)
    ensures r.Err? <==> RoundAt(c, saved, b).Err? || !Validated(c, RoundBlocks(c, b))
  {
    var k: nat :| InTally(c, b, k) && r == StateFrom(c, saved, b, k);
    TallyIsHistory(c, b, k);
  }

  /** In a stable round there is one answer. */
  lemma {:induction false} AnswerUnique(c: Config, saved: Saved, b: Id, r: Result<BftState, Error>)
    requires ValidConfig(c) && InRounds(c, b) && IsAnswer(c, saved, b, r) && StableRound(c, b)
    ensures r == StateFrom(c, saved, b, Number(b))
  {
    var k: nat :| InTally(c, b, k) && r == StateFrom(c, saved, b, k);
    StableTally(c, b, k);
  }

  // ---------- Answers and the state from scratch ----------

  /** The round of `b` starts from the quality that the round before has from scratch. */
  ghost predicate ExactBase(c: Config, saved: Saved, b: Id)
    requires ValidConfig(c)
  {
    InRounds(c, b) && !InFirstRound(c, b) ==> SavedQuality(saved, LastBefore(c, b)) == QualityOf(c, LastBefore(c, b))
  }

  /** Rebuilding the round at `b` itself gives the state from scratch. */
  lemma {:induction false} ScratchState(c: Config, saved: Saved, b: Id)
    requires ValidConfig(c) && InRounds(c, b) && ExactBase(c, saved, b)
    ensures StateFrom(c, saved, b, Number(b)) == StateOf(c, b)
  {
    assert RoundOf(c, b) == RoundAt(c, saved, b);
    assert StateInRound(c, b) == Outcome(RoundOf(c, b), RoundVotes(c, b));
  }

  /** No signer changes its weight in the round up to `b`, if there is one. */
  ghost predicate StableBlock(c: Config, b: Id)
    requires ValidConfig(c)
  {
    InRounds(c, b) ==> StableRound(c, b)
  }

  /** In a stable round the answer is the state from scratch. */
  lemma {:induction false} AnswerIsScratch(c: Config, saved: Saved, b: Id, r: Result<BftState, Error>)
    requires ValidConfig(c) && IsAnswer(c, saved, b, r) && ExactBase(c, saved, b) && StableBlock(c, b)
    ensures r == StateOf(c, b)
  {
    if InRounds(c, b) {
      AnswerUnique(c, saved, b, r);
      ScratchState(c, saved, b);
    }
  }

  /** In a stable round, a block on top of a justified one is justified. */
  lemma {:induction false} JustifiedStays(c: Config, b: Id)
    requires ValidConfig(c) && InRounds(c, b) && InRounds(c, b.parent) && Checkpoint(c, Number(b)) != Number(b)
    requires StableRound(c, b) && StateOf(c, b).Ok? && StateOf(c, b.parent).Ok? && StateOf(c, b.parent).value.justified
    ensures StateOf(c, b).value.justified && StateOf(c, b).value.quality == StateOf(c, b.parent).value.quality
  {
    ParentRound(c, b);
    RoundOfParent(c, b);
    assert InTally(c, b, Number(b.parent));
    StableTally(c, b, Number(b.parent));
    assert StateInRound(c, b) == StateOf(c, b) && StateInRound(c, b.parent) == StateOf(c, b.parent);
    AddingKeepsJustified(RoundOf(c, b).value, RoundVotes(c, b.parent).value, BallotOf(c, b));
  }

  /** If rounds are stable, quality never drops along a chain. */
  lemma {:induction false} QualityNeverDrops(c: Config, b: Id)
    requires ValidConfig(c) && b.Child? && StableBlock(c, b) && StateOf(c, b).Ok?
    ensures QualityOf(c, b.parent) <= QualityOf(c, b)
  {
    if InRounds(c, b) && InRounds(c, b.parent) && StateOf(c, b.parent).Ok? {
      StateSummary(c, b);
      if Checkpoint(c, Number(b)) == Number(b) {
        if InFirstRound(c, b) {
          CheckpointUnique(c, c.finality, Number(b));
        }
      } else if StateOf(c, b.parent).value.justified {
        JustifiedStays(c, b);
      } else {
        ParentRound(c, b);
        RoundOfParent(c, b);
        StateSummary(c, b.parent);
      }
    }
  }

  // ---------- What is saved ----------

  /** The quality that the round of `b` starts from has been saved. */
  ghost predicate Based(c: Config, saved: Saved, b: Id)
    requires ValidConfig(c)
  {
    InRounds(c, b) && !InFirstRound(c, b) ==> LastBefore(c, b).Genesis? || LastBefore(c, b) in saved
  }

  /** What is saved for `b` is the quality of an answer for `b`, which ended a round. */
  ghost predicate SavedAt(c: Config, saved: Saved, b: Id)
    requires ValidConfig(c) && b in saved
  {
    && b.Child? && Multiple(c, Number(b) + 1) && Based(c, saved, b)
    && exists st :: IsAnswer(c, saved, b, Ok(st)) && st.quality == saved[b]
  }

  ghost predicate SavedSound(c: Config, saved: Saved)
    requires ValidConfig(c)
  {
    forall b {:trigger SavedAt(c, saved, b)} :: b in saved ==> SavedAt(c, saved, b)
  }

  /** Every round that ended on the chain of `b` has its quality saved. */
  ghost predicate Concluded(c: Config, saved: Saved, b: Id)
    requires ValidConfig(c)
  {
    forall n: nat {:trigger Ancestor(b, n)} ::
      n <= Number(b) && 0 < n && c.finality <= n && Multiple(c, n + 1) ==> Ancestor(b, n) in saved
  }

  /** Saved qualities are those from scratch. */
  ghost predicate SavedExact(c: Config, saved: Saved)
    requires ValidConfig(c)
  {
    forall b :: b in saved ==> saved[b] == QualityOf(c, b)
  }

  /** Only blocks with a parent are saved. */
  lemma {:induction false} SavedChildren(c: Config, saved: Saved)
    requires ValidConfig(c) && SavedSound(c, saved)
    ensures forall x :: x in saved ==> x.Child?
  {
    forall x | x in saved ensures x.Child? {
      assert SavedAt(c, saved, x);
    }
  }

  lemma {:induction false} ConcludedBase(c: Config, saved: Saved, b: Id)
    requires ValidConfig(c) && b.Child? && Concluded(c, saved, b.parent)
    ensures Based(c, saved, b)
  {
    if InRounds(c, b) && !InFirstRound(c, b) {
      LaterRound(c, Number(b));
    }
  }

  lemma {:induction false} ExactSavedBase(c: Config, saved: Saved, b: Id)
    requires ValidConfig(c) && SavedExact(c, saved) && Based(c, saved, b)
    requires forall x :: x in saved ==> x.Child?
    ensures ExactBase(c, saved, b)
  {
  }

  /** On exact saved qualities, the answer for a stable block is the state from scratch. */
  lemma {:induction false} AnswerExact(c: Config, saved: Saved, b: Id, st: BftState)
    requires ValidConfig(c) && SavedSound(c, saved) && SavedExact(c, saved) && Based(c, saved, b) && StableBlock(c, b)
    requires IsAnswer(c, saved, b, Ok(st))
    ensures StateOf(c, b) == Ok(st) && QualityOf(c, b) == st.quality
  {
    SavedChildren(c, saved);
    ExactSavedBase(c, saved, b);
    AnswerIsScratch(c, saved, b, Ok(st));
  }

  /** Saving more does not change the answers for blocks whose base was saved already. */
  lemma {:induction false} AnswerKept(c: Config, saved: Saved, more: Saved, b: Id)
    requires ValidConfig(c) && Based(c, saved, b)
    requires forall x :: x in saved ==> x in more && more[x] == saved[x]
    requires forall x :: x in more ==> x.Child?
    ensures Based(c, more, b)
    ensures InRounds(c, b) ==> RoundAt(c, more, b) == RoundAt(c, saved, b)
    ensures forall r :: IsAnswer(c, saved, b, r) ==> IsAnswer(c, more, b, r)
  {
    if InRounds(c, b) {
      forall r | IsAnswer(c, saved, b, r) ensures IsAnswer(c, more, b, r) {
        var k: nat :| InTally(c, b, k) && r == StateFrom(c, saved, b, k);
        assert r == StateFrom(c, more, b, k);
      }
    }
  }

  lemma {:induction false} SavedGrows(c: Config, saved: Saved, b: Id, st: BftState)
    requires ValidConfig(c) && SavedSound(c, saved) && b !in saved && b.Child? && Multiple(c, Number(b) + 1)
    requires Based(c, saved, b) && IsAnswer(c, saved, b, Ok(st))
    ensures SavedSound(c, saved[b := st.quality])
  {
    var more := saved[b := st.quality];
    SavedChildren(c, saved);
    forall x | x in more ensures SavedAt(c, more, x) {
      if x == b {
        AnswerKept(c, saved, more, b);
      } else {
        assert SavedAt(c, saved, x);
        AnswerKept(c, saved, more, x);
      }
    }
  }

  /** A saved quality is that of the round before, or one more. */
  lemma {:induction false} SavedStep(c: Config, saved: Saved, b: Id)
    requires ValidConfig(c) && SavedSound(c, saved) && b in saved && InRounds(c, b)
    ensures BaseQuality(c, saved, b) <= saved[b] <= BaseQuality(c, saved, b) + 1
  {
    assert SavedAt(c, saved, b);
    var st :| IsAnswer(c, saved, b, Ok(st)) && st.quality == saved[b];
    AnswerQuality(c, saved, b, st);
  }

  /** If rounds are stable, what is saved for them is the quality from scratch. */
  lemma {:induction false} SavedStaysExact(c: Config, saved: Saved, b: Id, st: BftState)
    requires ValidConfig(c) && SavedSound(c, saved) && SavedExact(c, saved) && Based(c, saved, b)
    requires IsAnswer(c, saved, b, Ok(st)) && StableBlock(c, b)
    ensures SavedExact(c, saved[b := st.quality])
  {
    SavedChildren(c, saved);
    ExactSavedBase(c, saved, b);
    AnswerIsScratch(c, saved, b, Ok(st));
  }

  /** Saving the quality of `b` concludes its chain. */
  lemma {:induction false} ConcludedNext(c: Config, before: Saved, saved: Saved, b: Id)
    requires ValidConfig(c) && b.Child? && Concluded(c, before, b.parent)
    requires forall x :: x in before ==> x in saved
    requires Multiple(c, Number(b) + 1) && c.finality <= Number(b) ==> b in saved
    ensures Concluded(c, saved, b)
  {
    forall n: nat {:trigger Ancestor(b, n)} | n <= Number(b) && 0 < n && c.finality <= n && Multiple(c, n + 1)
      ensures Ancestor(b, n) in saved
    {
      if n < Number(b) {
        assert Ancestor(b, n) == Ancestor(b.parent, n);
      }
    }
  }

  lemma {:induction false} ConcludedBelow(c: Config, saved: Saved, b: Id, n: nat)
    requires ValidConfig(c) && Concluded(c, saved, b) && n <= Number(b)
    ensures Concluded(c, saved, Ancestor(b, n))
  {
    var a := Ancestor(b, n);
    forall k: nat {:trigger Ancestor(a, k)} | k <= Number(a) && 0 < k && c.finality <= k && Multiple(c, k + 1)
      ensures Ancestor(a, k) in saved
    {
      AncestorTwice(b, n, k);
    }
  }

  lemma {:induction false} ConcludedParent(c: Config, saved: Saved, b: Id)
    requires ValidConfig(c) && Concluded(c, saved, b) && b.Child?
    ensures Concluded(c, saved, b.parent)
  {
    ConcludedBelow(c, saved, b, Number(b.parent));
    assert Ancestor(b, Number(b.parent)) == b.parent;
  }

  lemma {:induction false} ConcludedOwnBase(c: Config, saved: Saved, b: Id)
    requires ValidConfig(c) && Concluded(c, saved, b)
    ensures Based(c, saved, b)
  {
    if b.Child? {
      ConcludedParent(c, saved, b);
      ConcludedBase(c, saved, b);
    }
  }
}
