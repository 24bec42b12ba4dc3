/**
 * A run in which a signer votes COM in the rounds that finalize two conflicting checkpoints, although it always builds on
 * its best block and follows the voting rule. The rest of the weight signs on both branches.
 */
module BftOvertaken {
  import opened Wrappers
  import opened WeightedSets
  import opened BlockTree
  import opened BftVotes
  import opened BftRounds
  import opened BftTallies
  import opened BftAnswers
  import opened BftSearch
  import opened BftFinality
  import opened BftForkChoice
  import opened BftSelection
  import opened BftProcessor
  import opened BftQuorums
  import opened BftVoting

  const TWO_BLOCK_ROUNDS := Config(2, 1, 0, 0)

  /** Validator 1 weighs 3 and validator 2, the signer, weighs 1. */
  const VALIDATORS: map<Address, nat> := map[1 := 3, 2 := 1]
  const DUO := Staker(true, 4, VALIDATORS, 0)

  function Next(parent: Id, digest: nat, signer: Address, com: bool): Id {
    Child(parent, digest, Header(signer, com, Number(parent) + 1, DUO))
  }

  const G: Id := Genesis(0, Header(0, false, 0, DUO))
  const X1 := Next(G, 0, 1, false)
  const X2 := Next(X1, 0, 1, false)
  const X3 := Next(X2, 0, 1, false)
  const X4 := Next(X3, 0, 2, true)
  const X5 := Next(X4, 0, 1, true)

  /** The other branch. */
  const Y2 := Next(X1, 1, 1, false)
  const Y3 := Next(Y2, 1, 1, false)
  const Y4 := Next(Y3, 1, 1, false)
  const Y5 := Next(Y4, 1, 1, false)
  const Y6 := Next(Y5, 1, 1, true)
  const Y7 := Next(Y6, 1, 2, true)

  ghost predicate IsDuo(b: Id) {
    b.header.staker == DUO && Root(b) == G && (b.Child? ==> b.header.signer in VALIDATORS && IsDuo(b.parent))
  }

  // ---------- States ----------

  lemma {:induction false} SumDuo(s: set<Address>)
    requires s <= VALIDATORS.Keys
    ensures Sum(s, VALIDATORS) == (if 1 in s then 3 else 0) + (if 2 in s then 1 else 0)
  {
    var empty: set<Address> := {};
    SumTakeIf(s, 1);
    SumTakeIf(s - {1}, 2);
    assert s - {1} - {2} == empty;
  }

  lemma {:induction false} SumTakeIf(s: set<Address>, x: Address)
    ensures Sum(s, VALIDATORS) == Sum(s - {x}, VALIDATORS) + if x in s then Weight(x, VALIDATORS) else 0
  {
    if x in s {
      SumTake(s, x, VALIDATORS);
    } else {
      assert s - {x} == s;
    }
  }

  lemma {:induction false} WalkIsDuo(b: Id, end: nat, h: Id)
    requires IsDuo(b) && b.Child? && h in Walk(TWO_BLOCK_ROUNDS, b, end)
    ensures IsDuo(h) && h.Child?
    decreases b
  {
    assert Number(b) == Number(b.parent) + 1;
    if h != b {
      WalkIsDuo(b.parent, end, h);
    }
  }

  lemma {:induction false} DuoGoverned(b: Id)
    requires IsDuo(b) && b.Child?
    ensures GovernedByWeight(TWO_BLOCK_ROUNDS, VALIDATORS, b) && Validated(TWO_BLOCK_ROUNDS, RoundBlocks(TWO_BLOCK_ROUNDS, b))
  {
    var c := TWO_BLOCK_ROUNDS;
    SumDuo(VALIDATORS.Keys);
    forall h | h in RoundBlocks(c, b) ensures WeighedBy(c, VALIDATORS, h) && HasValidator(c, h) {
      WalkIsDuo(b, Checkpoint(c, Number(b)), h);
    }
    DuoAncestor(b, Number(LastBefore(c, b)));
    AncestorOfParent(b, Number(LastBefore(c, b)));
  }

  lemma {:induction false} DuoAncestor(b: Id, n: nat)
    requires IsDuo(b) && n <= Number(b)
    ensures IsDuo(Ancestor(b, n))
  {
    if Number(b) != n {
      DuoAncestor(b.parent, n);
    }
  }

  lemma {:induction false} AncestorOfParent(b: Id, n: nat)
    requires b.Child? && n < Number(b)
    ensures Ancestor(b, n) == Ancestor(b.parent, n)
  {
  }

  /** A round is justified if validator 1 signs in it, and committed if it does with COM only. */
  lemma {:induction false} DuoState(b: Id)
    requires IsDuo(b) && b.Child?
    ensures StableBlock(TWO_BLOCK_ROUNDS, b) && StateOf(TWO_BLOCK_ROUNDS, b).Ok? && !Unanswered(TWO_BLOCK_ROUNDS, b)
    ensures var st := StateOf(TWO_BLOCK_ROUNDS, b).value;
            && (st.justified <==> 1 in SignersOf(TWO_BLOCK_ROUNDS, b)) && (st.committed <==> 1 in ComSignersOf(TWO_BLOCK_ROUNDS, b))
            && st.quality == (if InFirstRound(TWO_BLOCK_ROUNDS, b) then 0 else QualityOf(TWO_BLOCK_ROUNDS, LastBefore(TWO_BLOCK_ROUNDS, b)))
                             + (if st.justified then 1 else 0)
  {
    var c, last := TWO_BLOCK_ROUNDS, LastBefore(TWO_BLOCK_ROUNDS, b);
    var saved := map[last := QualityOf(c, last)];
    DuoGoverned(b);
    GovernedIsStable(c, VALIDATORS, b);
    ScratchState(c, saved, b);
    assert InTally(c, b, Number(b));
    assert RoundAt(c, saved, b).Ok? && IsAnswer(c, saved, b, StateOf(c, b));
    AnsweredIff(c, saved, b, StateOf(c, b));
    var st := StateOf(c, b).value;
    QuorumOf(c, VALIDATORS, saved, b, st);
    AnswerQuality(c, saved, b, st);
    SumDuo(SignersOf(c, b));
    SumDuo(ComSignersOf(c, b));
    SumDuo(VALIDATORS.Keys);
  }

  lemma {:induction false} SignersOfTwo(bs: seq<Id>)
    requires 1 <= |bs| <= 2
    ensures var vs := Ballots(TWO_BLOCK_ROUNDS, bs);
            && (1 in Signers(vs) <==> exists h :: h in bs && h.header.signer == 1)
            && (1 in Signers(vs) && AllCom(vs, 1) <==>
                  (exists h :: h in bs && h.header.signer == 1) && forall h :: h in bs && h.header.signer == 1 ==> h.header.com)
  {
    var vs := Ballots(TWO_BLOCK_ROUNDS, bs);
    forall i | 0 <= i < |bs| ensures vs[i].signer == bs[i].header.signer && vs[i].com == bs[i].header.com && vs[i] in vs && bs[i] in bs {
    }
  }

  /** The checkpoint of a later round. */
  lemma {:induction false} EvenState(b: Id)
    requires IsDuo(b) && b.Child? && b.parent.Child? && Multiple(TWO_BLOCK_ROUNDS, Number(b))
    ensures var c, q := TWO_BLOCK_ROUNDS, QualityOf(TWO_BLOCK_ROUNDS, b.parent);
            StateOf(c, b) == Ok(if b.header.signer == 1 then BftState(q + 1, true, b.header.com) else BftState(q, false, false))
  {
    var c := TWO_BLOCK_ROUNDS;
    CheckpointUnique(c, Number(b), Number(b));
    CheckpointUnique(c, 1, 0);
    assert Number(b) == Number(b.parent) + 1;
    assert RoundBlocks(c, b) == [b] && LastBefore(c, b) == b.parent;
    SignersOfTwo([b]);
    DuoState(b);
  }

  lemma {:induction false} OddRound(b: Id)
    requires b.Child? && b.parent.Child? && b.parent.parent.Child? && Multiple(TWO_BLOCK_ROUNDS, Number(b) + 1)
    ensures RoundBlocks(TWO_BLOCK_ROUNDS, b) == [b] + [b.parent] && LastBefore(TWO_BLOCK_ROUNDS, b) == b.parent.parent
    ensures !InFirstRound(TWO_BLOCK_ROUNDS, b) && Checkpoint(TWO_BLOCK_ROUNDS, Number(b)) == Number(b.parent)
  {
    var c, p := TWO_BLOCK_ROUNDS, b.parent;
    assert Number(b) == Number(p) + 1 && Number(p) == Number(p.parent) + 1;
    MultipleStep(c, Number(p));
    MultipleStep(c, 0);
    CheckpointUnique(c, Number(b), Number(p));
    CheckpointUnique(c, 1, 0);
    assert Walk(c, p, Number(p)) == [p];
    assert RoundBlocks(c, b) == [b] + Walk(c, p, Number(p));
    assert Ancestor(p, Number(p) - 1) == p.parent;
  }

  /** The end of a later round. */
  lemma {:induction false} OddState(b: Id)
    requires IsDuo(b) && b.Child? && b.parent.Child? && b.parent.parent.Child? && Multiple(TWO_BLOCK_ROUNDS, Number(b) + 1)
    ensures var c, p, q := TWO_BLOCK_ROUNDS, b.parent, QualityOf(TWO_BLOCK_ROUNDS, b.parent.parent);
            var signs, com := b.header.signer == 1 || p.header.signer == 1,
                              (b.header.signer == 1 ==> b.header.com) && (p.header.signer == 1 ==> p.header.com);
            StateOf(c, b) == Ok(if signs then BftState(q + 1, true, com) else BftState(q, false, false))
  {
    OddRound(b);
    SignersOfTwo([b] + [b.parent]);
    DuoState(b);
  }

  lemma {:induction false} FirstState()
    ensures StateOf(TWO_BLOCK_ROUNDS, X1) == Ok(BftState(1, true, false))
  {
    var c := TWO_BLOCK_ROUNDS;
    MultipleStep(c, 0);
    CheckpointUnique(c, 1, 0);
    assert Number(X1) == 1 && RoundBlocks(c, X1) == [X1] && IsDuo(X1);
    SignersOfTwo([X1]);
    DuoState(X1);
  }

  lemma {:induction false} Heights()
    ensures Number(G) == 0 && Number(X1) == 1 && Number(X2) == 2 && Number(X3) == 3 && Number(X4) == 4 && Number(X5) == 5
    ensures Number(Y2) == 2 && Number(Y3) == 3 && Number(Y4) == 4 && Number(Y5) == 5 && Number(Y6) == 6 && Number(Y7) == 7
  {
    assert Number(X1) == Number(G) + 1 && Number(X2) == Number(X1) + 1 && Number(X3) == Number(X2) + 1;
    assert Number(X4) == Number(X3) + 1 && Number(X5) == Number(X4) + 1;
    assert Number(Y2) == Number(X1) + 1 && Number(Y3) == Number(Y2) + 1 && Number(Y4) == Number(Y3) + 1;
    assert Number(Y5) == Number(Y4) + 1 && Number(Y6) == Number(Y5) + 1 && Number(Y7) == Number(Y6) + 1;
  }

  lemma {:induction false} Multiples()
    ensures var c := TWO_BLOCK_ROUNDS;
            && Multiple(c, 0) && Multiple(c, 2) && Multiple(c, 4) && Multiple(c, 6) && Multiple(c, 8)
            && !Multiple(c, 1) && !Multiple(c, 3) && !Multiple(c, 5) && !Multiple(c, 7)
  {
    var c := TWO_BLOCK_ROUNDS;
    MultipleStep(c, 0);
    MultipleStep(c, 2);
    MultipleStep(c, 4);
    MultipleStep(c, 6);
    MultipleStep(c, 1);
    MultipleStep(c, 3);
    MultipleStep(c, 5);
  }

  lemma {:induction false} AllDuo()
    ensures IsDuo(X1) && IsDuo(X2) && IsDuo(X3) && IsDuo(X4) && IsDuo(X5)
    ensures IsDuo(Y2) && IsDuo(Y3) && IsDuo(Y4) && IsDuo(Y5) && IsDuo(Y6) && IsDuo(Y7)
  {
    assert IsDuo(G);
    assert Root(X1) == G && Root(X2) == G && Root(X3) == G && Root(X4) == G && Root(X5) == G;
    assert Root(Y2) == G && Root(Y3) == G && Root(Y4) == G && Root(Y5) == G && Root(Y6) == G && Root(Y7) == G;
  }

  lemma {:induction false} StatesX()
    ensures StateOf(TWO_BLOCK_ROUNDS, X2) == StateOf(TWO_BLOCK_ROUNDS, X3) == Ok(BftState(2, true, false))
    ensures StateOf(TWO_BLOCK_ROUNDS, X4) == Ok(BftState(2, false, false)) && StateOf(TWO_BLOCK_ROUNDS, X5) == Ok(BftState(3, true, true))
  {
    Heights();
    Multiples();
    AllDuo();
    FirstState();
    EvenState(X2);
    OddState(X3);
    EvenState(X4);
    OddState(X5);
  }

  lemma {:induction false} StatesY()
    ensures StateOf(TWO_BLOCK_ROUNDS, Y2) == StateOf(TWO_BLOCK_ROUNDS, Y3) == Ok(BftState(2, true, false))
    ensures StateOf(TWO_BLOCK_ROUNDS, Y4) == StateOf(TWO_BLOCK_ROUNDS, Y5) == Ok(BftState(3, true, false))
    ensures StateOf(TWO_BLOCK_ROUNDS, Y6) == StateOf(TWO_BLOCK_ROUNDS, Y7) == Ok(BftState(4, true, true))
  {
    Heights();
    Multiples();
    AllDuo();
    FirstState();
    EvenState(Y2);
    OddState(Y3);
    EvenState(Y4);
    OddState(Y5);
    EvenState(Y6);
    OddState(Y7);
  }

  // ---------- Runs ----------

  /** A run that leads to `v` and has taken in `blocks`, with states from scratch and nothing finalized yet. */
  ghost predicate Reached(v: View, blocks: set<Id>, run: seq<Arrival>) {
    && IsSelection(TWO_BLOCK_ROUNDS, Start(G), run) && EndView(TWO_BLOCK_ROUNDS, Start(G), run) == v
    && AllFit(TWO_BLOCK_ROUNDS, v.node, blocks, v.best) && SavedExact(TWO_BLOCK_ROUNDS, v.node.saved) && v.node.finalized == G
    && forall x :: x in blocks ==> IsDuo(x)
  }

  lemma {:induction false} DuoOk(b: Id)
    requires IsDuo(b)
    ensures StateOf(TWO_BLOCK_ROUNDS, b).Ok? && StableBlock(TWO_BLOCK_ROUNDS, b) && !Unanswered(TWO_BLOCK_ROUNDS, b)
  {
    if b.Child? {
      DuoState(b);
    }
  }

  /** One more block arrives. */
  lemma {:induction false} Take(v: View, blocks: set<Id>, run: seq<Arrival>, b: Id) returns (w: View, more: seq<Arrival>)
    requires Reached(v, blocks, run) && IsDuo(b) && b.Child? && b.parent in blocks && b !in blocks
    requires StateOf(TWO_BLOCK_ROUNDS, b).Ok? && !Finalizes(TWO_BLOCK_ROUNDS, b, StateOf(TWO_BLOCK_ROUNDS, b).value)
    ensures Reached(w, blocks + {b}, more) && BlocksOf(more) == BlocksOf(run) + [b] && run < more
    ensures StateOf(TWO_BLOCK_ROUNDS, v.best).Ok?
    ensures w.best == if Replaces(TWO_BLOCK_ROUNDS, FromScratch(TWO_BLOCK_ROUNDS, v.best, b), v.best) then b else v.best
  {
    var c := TWO_BLOCK_ROUNDS;
    DuoOk(b);
    DuoOk(v.best);
    var a := FromScratch(c, v.best, b);
    assert Fits(c, v.node, b.parent) && Fits(c, v.node, v.best);
    ConcludedBase(c, v.node.saved, b);
    ConcludedOwnBase(c, v.node.saved, v.best);
    ScratchAnswer(c, v.node.saved, b);
    ScratchAnswer(c, v.node.saved, v.best);
    w, more := NextView(c, v, a), run + [a];
    NextFits(c, v.node, Step(b, a.committed), blocks, v.best, w.best);
    CommitKeepsExact(c, v.node, Step(b, a.committed));
    SelectionAppend(c, Start(G), run, a);
    BlocksAppend(run, a);
  }

  /** What the runs need to know of a block. */
  ghost predicate Fact(b: Id, p: Id, n: nat, digest: nat, st: BftState) {
    && IsDuo(b) && b.Child? && b.parent == p && Number(b) == n == b.header.totalScore && b.digest == digest
    && StateOf(TWO_BLOCK_ROUNDS, b) == Ok(st) && !(st.committed && Multiple(TWO_BLOCK_ROUNDS, n + 1))
  }

  /** No block is at this height or above with this digest. */
  ghost predicate Room(blocks: set<Id>, n: nat, digest: nat) {
    forall x :: x in blocks ==> x.digest != digest || Number(x) < n
  }

  lemma {:induction false} RoomNext(blocks: set<Id>, b: Id, n: nat, digest: nat)
    requires Room(blocks, n, digest) && b.digest == digest && Number(b) == n
    ensures b !in blocks && Room(blocks + {b}, n + 1, digest)
    ensures digest == 0 && Room(blocks, 2, 1) ==> Room(blocks + {b}, 2, 1)
  {
  }

  lemma {:induction false} TakeFact(v: View, blocks: set<Id>, run: seq<Arrival>, b: Id, p: Id, n: nat, digest: nat, st: BftState)
    returns (w: View, more: seq<Arrival>)
    requires Reached(v, blocks, run) && Fact(b, p, n, digest, st) && p in blocks && Room(blocks, n, digest)
    ensures Reached(w, blocks + {b}, more) && BlocksOf(more) == BlocksOf(run) + [b] && run < more
    ensures StateOf(TWO_BLOCK_ROUNDS, v.best).Ok?
    ensures w.best == if Replaces(TWO_BLOCK_ROUNDS, FromScratch(TWO_BLOCK_ROUNDS, v.best, b), v.best) then b else v.best
  {
    RoomNext(blocks, b, n, digest);
    w, more := Take(v, blocks, run, b);
  }

  /** A child of the best block, of no lower quality, becomes the best block. */
  lemma {:induction false} TakeChild(v: View, blocks: set<Id>, run: seq<Arrival>, b: Id, n: nat, digest: nat, st: BftState, before: BftState)
    returns (w: View, more: seq<Arrival>)
    requires Reached(v, blocks, run) && Fact(b, v.best, n, digest, st) && Room(blocks, n, digest)
    requires StateOf(TWO_BLOCK_ROUNDS, v.best) == Ok(before) && before.quality <= st.quality && v.best.header.totalScore < n
    ensures Reached(w, blocks + {b}, more) && Room(blocks + {b}, n + 1, digest) && w.best == b
    ensures digest == 0 && Room(blocks, 2, 1) ==> Room(blocks + {b}, 2, 1)
    ensures BlocksOf(more) == BlocksOf(run) + [b] && run < more
  {
    w, more := TakeFact(v, blocks, run, b, v.best, n, digest, st);
    RoomNext(blocks, b, n, digest);
    ChildPreferredIff(b, st.quality, before.quality);
  }

  /** Another block becomes the best block if it is preferred. */
  lemma {:induction false} TakeOther(v: View, blocks: set<Id>, run: seq<Arrival>, b: Id, p: Id, n: nat, digest: nat, st: BftState, best: BftState)
    returns (w: View, more: seq<Arrival>)
    requires Reached(v, blocks, run) && Fact(b, p, n, digest, st) && p in blocks && Room(blocks, n, digest) && 1 <= Number(v.best)
    requires StateOf(TWO_BLOCK_ROUNDS, v.best) == Ok(best)
    ensures Reached(w, blocks + {b}, more) && Room(blocks + {b}, n + 1, digest)
    ensures w.best == if PreferredBy(b, st.quality, v.best, best.quality) then b else v.best
    ensures BlocksOf(more) == BlocksOf(run) + [b] && run < more
  {
    w, more := TakeFact(v, blocks, run, b, p, n, digest, st);
    RoomNext(blocks, b, n, digest);
    PastFork(v.best, b, st, best);
  }

  lemma {:induction false} PastFork(best: Id, b: Id, st: BftState, bestSt: BftState)
    requires 1 <= Number(best) && 1 <= Number(b) && StateOf(TWO_BLOCK_ROUNDS, b) == Ok(st) && StateOf(TWO_BLOCK_ROUNDS, best) == Ok(bestSt)
    ensures Replaces(TWO_BLOCK_ROUNDS, FromScratch(TWO_BLOCK_ROUNDS, best, b), best) <==> PreferredBy(b, st.quality, best, bestSt.quality)
  {
  }

  lemma {:induction false} StartReached()
    ensures Reached(Start(G), {G}, []) && Room({G}, 1, 0) && Room({G}, 2, 1) && StateOf(TWO_BLOCK_ROUNDS, G) == Ok(BftState(0, false, false))
  {
    assert Fits(TWO_BLOCK_ROUNDS, Start(G).node, G);
    assert IsDuo(G);
  }

  lemma {:induction false} FirstBlock(x1: Id) returns (v: View, run: seq<Arrival>)
    requires Fact(x1, G, 1, 0, BftState(1, true, false))
    ensures Reached(v, {G} + {x1}, run) && v.best == x1 && BlocksOf(run) == [x1]
    ensures Room({G} + {x1}, 2, 0) && Room({G} + {x1}, 2, 1)
  {
    StartReached();
    v, run := TakeChild(Start(G), {G}, [], x1, 1, 0, BftState(1, true, false), BftState(0, false, false));
    assert BlocksOf([]) + [x1] == [x1];
  }

  /** Blocks 1 to 3, each of which becomes the best block. */
  lemma {:induction false} Trunk(x1: Id, x2: Id, x3: Id) returns (v: View, blocks: set<Id>, run: seq<Arrival>)
    requires Fact(x1, G, 1, 0, BftState(1, true, false)) && Fact(x2, x1, 2, 0, BftState(2, true, false))
    requires Fact(x3, x2, 3, 0, BftState(2, true, false))
    ensures Reached(v, blocks, run) && v.best == x3 && BlocksOf(run) == [x1] + [x2] + [x3]
    ensures x1 in blocks && x3 in blocks && Room(blocks, 4, 0) && Room(blocks, 2, 1)
  {
    v, run := FirstBlock(x1);
    blocks := {G} + {x1};
    v, run := TakeChild(v, blocks, run, x2, 2, 0, BftState(2, true, false), BftState(1, true, false));
    blocks := blocks + {x2};
    v, run := TakeChild(v, blocks, run, x3, 3, 0, BftState(2, true, false), BftState(2, true, false));
    blocks := blocks + {x3};
  }

  /** The other branch arrives; the best block changes over once it has the higher quality. */
  lemma {:induction false} Branch(u: View, seen: set<Id>, past: seq<Arrival>, x1: Id, x4: Id, y2: Id, y3: Id, y4: Id)
    returns (v: View, blocks: set<Id>, run: seq<Arrival>)
    requires Reached(u, seen, past) && x1 in seen && Room(seen, 2, 1) && u.best == x4 && x4.Child?
    requires StateOf(TWO_BLOCK_ROUNDS, x4) == Ok(BftState(2, false, false)) && x4.header.totalScore == 4
    requires Fact(y2, x1, 2, 1, BftState(2, true, false)) && Fact(y3, y2, 3, 1, BftState(2, true, false))
    requires Fact(y4, y3, 4, 1, BftState(3, true, false))
    ensures Reached(v, blocks, run) && v.best == y4 && BlocksOf(run) == BlocksOf(past) + [y2] + [y3] + [y4] && past <= run
    ensures Room(blocks, 5, 1) && y4 in blocks
  {
    blocks := seen;
    v, run := TakeOther(u, blocks, past, y2, x1, 2, 1, BftState(2, true, false), BftState(2, false, false));
    blocks := blocks + {y2};
    v, run := TakeOther(v, blocks, run, y3, y2, 3, 1, BftState(2, true, false), BftState(2, false, false));
    blocks := blocks + {y3};
    v, run := TakeOther(v, blocks, run, y4, y3, 4, 1, BftState(3, true, false), BftState(2, false, false));
    blocks := blocks + {y4};
  }

  /** It grows. */
  lemma {:induction false} Growth(u: View, seen: set<Id>, past: seq<Arrival>, y4: Id, y5: Id, y6: Id)
    returns (v: View, blocks: set<Id>, run: seq<Arrival>)
    requires Reached(u, seen, past) && Room(seen, 5, 1) && u.best == y4
    requires StateOf(TWO_BLOCK_ROUNDS, y4) == Ok(BftState(3, true, false)) && y4.header.totalScore == 4
    requires Fact(y5, y4, 5, 1, BftState(3, true, false)) && Fact(y6, y5, 6, 1, BftState(4, true, true))
    ensures Reached(v, blocks, run) && v.best == y6 && BlocksOf(run) == BlocksOf(past) + [y5] + [y6] && past <= run
    ensures Room(blocks, 7, 1) && y6 in blocks
  {
    v, run := TakeChild(u, seen, past, y5, 5, 1, BftState(3, true, false), BftState(3, true, false));
    blocks := seen + {y5};
    v, run := TakeChild(v, blocks, run, y6, 6, 1, BftState(4, true, true), BftState(3, true, false));
    blocks := blocks + {y6};
  }

  // ---------- The two finalizations ----------

  /** The quality of a round that ended is saved. */
  lemma {:induction false} SavedThere(saved: Saved, tip: Id, b: Id, e: nat)
    requires SavedExact(TWO_BLOCK_ROUNDS, saved) && Concluded(TWO_BLOCK_ROUNDS, saved, tip)
    requires 1 <= e <= Number(tip) && Ancestor(tip, e) == b && Multiple(TWO_BLOCK_ROUNDS, e + 1)
    ensures SavedQuality(saved, b) == QualityOf(TWO_BLOCK_ROUNDS, b)
  {
  }

  /** The search goes on to the next round, or stops at this one. */
  lemma {:induction false} SearchStep(saved: Saved, target: nat, n: nat, head: Id, end: Id, quality: nat)
    requires n + 1 <= Number(head) && Ancestor(head, n + 1) == end && SavedQuality(saved, end) == quality
    ensures quality == target ==> CheckpointFor(TWO_BLOCK_ROUNDS, saved, target, n, head) == Ok(Ancestor(head, n))
    ensures quality < target ==>
              CheckpointFor(TWO_BLOCK_ROUNDS, saved, target, n, head) == CheckpointFor(TWO_BLOCK_ROUNDS, saved, target, n + 2, head)
  {
  }

  lemma {:induction false} StartsAtZero()
    ensures SearchStart(TWO_BLOCK_ROUNDS, G) == 0
  {
    MultipleStep(TWO_BLOCK_ROUNDS, 0);
    CheckpointUnique(TWO_BLOCK_ROUNDS, 1, 0);
  }

  /** Block 5 finalizes block 2. */
  lemma {:induction false} FinalizesX(node: Node, x1: Id, x2: Id, x3: Id, x4: Id, x5: Id)
    requires SavedExact(TWO_BLOCK_ROUNDS, node.saved) && Concluded(TWO_BLOCK_ROUNDS, node.saved, x4) && node.finalized == G && x5 !in node.saved
    requires x5.Child? && x5.parent == x4 && Number(x4) == 4 && Ancestor(x4, 3) == x3 && Ancestor(x4, 2) == x2 && Ancestor(x4, 1) == x1
    requires QualityOf(TWO_BLOCK_ROUNDS, x1) == 1 && QualityOf(TWO_BLOCK_ROUNDS, x3) == 2
    ensures var x := Step(x5, BftState(3, true, true));
            Found(TWO_BLOCK_ROUNDS, node, x) && Commit(TWO_BLOCK_ROUNDS, node, x).finalized == x2
  {
    var c, saved := TWO_BLOCK_ROUNDS, node.saved[x5 := 3];
    Multiples();
    StartsAtZero();
    SavedThere(node.saved, x4, x1, 1);
    SavedThere(node.saved, x4, x3, 3);
    assert Number(x5) == 5 && Ancestor(x5, 1) == x1 && Ancestor(x5, 2) == x2 && Ancestor(x5, 3) == x3;
    SearchStep(saved, 2, 0, x5, x1, 1);
    SearchStep(saved, 2, 2, x5, x3, 2);
  }

  /** Block 7 of the other branch finalizes its block 4. */
  lemma {:induction false} FinalizesY(node: Node, x1: Id, y3: Id, y4: Id, y5: Id, y6: Id, y7: Id)
    requires SavedExact(TWO_BLOCK_ROUNDS, node.saved) && Concluded(TWO_BLOCK_ROUNDS, node.saved, y6) && node.finalized == G && y7 !in node.saved
    requires y7.Child? && y7.parent == y6 && Number(y6) == 6
    requires Ancestor(y6, 5) == y5 && Ancestor(y6, 4) == y4 && Ancestor(y6, 3) == y3 && Ancestor(y6, 1) == x1
    requires QualityOf(TWO_BLOCK_ROUNDS, x1) == 1 && QualityOf(TWO_BLOCK_ROUNDS, y3) == 2 && QualityOf(TWO_BLOCK_ROUNDS, y5) == 3
    ensures var y := Step(y7, BftState(4, true, true));
            Found(TWO_BLOCK_ROUNDS, node, y) && Commit(TWO_BLOCK_ROUNDS, node, y).finalized == y4
  {
    var c, saved := TWO_BLOCK_ROUNDS, node.saved[y7 := 4];
    Multiples();
    StartsAtZero();
    SavedThere(node.saved, y6, x1, 1);
    SavedThere(node.saved, y6, y3, 3);
    SavedThere(node.saved, y6, y5, 5);
    assert Number(y7) == 7 && Ancestor(y7, 1) == x1 && Ancestor(y7, 3) == y3 && Ancestor(y7, 4) == y4 && Ancestor(y7, 5) == y5;
    SearchStep(saved, 3, 0, y7, x1, 1);
    SearchStep(saved, 3, 2, y7, y3, 2);
    SearchStep(saved, 3, 4, y7, y5, 3);
  }

  // ---------- The signer ----------

  /** On top of a justified block the rule looks at its checkpoint. */
  lemma {:induction false} RuleAllows(v: View, blocks: set<Id>, run: seq<Arrival>, parent: Id, st: BftState, casts: map<Id, nat>)
    requires Reached(v, blocks, run) && parent in blocks && 3 <= Number(parent) && StateOf(TWO_BLOCK_ROUNDS, parent) == Ok(st) && st.justified
    requires MayVote(G, casts, CheckpointOf(TWO_BLOCK_ROUNDS, parent), st.quality)
    ensures VotesOn(TWO_BLOCK_ROUNDS, G, casts, v.node.saved, parent, st)
  {
    var c := TWO_BLOCK_ROUNDS;
    StartsAtZero();
    CheckpointUnique(c, 1, 0);
    DuoOk(parent);
    assert Fits(c, v.node, parent);
    ConcludedParent(c, v.node.saved, parent);
    ConcludedOwnBase(c, v.node.saved, parent);
    ScratchAnswer(c, v.node.saved, parent);
  }

  /** A block that was reached can be followed by any block on top, with its state from scratch. */
  lemma {:induction false} CanCommit(v: View, blocks: set<Id>, run: seq<Arrival>, b: Id, st: BftState)
    requires Reached(v, blocks, run) && IsDuo(b) && b.Child? && b.parent in blocks && b !in blocks
    requires StateOf(TWO_BLOCK_ROUNDS, b) == Ok(st)
    ensures Commits(TWO_BLOCK_ROUNDS, v.node, Step(b, st)) && Based(TWO_BLOCK_ROUNDS, v.node.saved, b)
    ensures Concluded(TWO_BLOCK_ROUNDS, v.node.saved, b.parent) && b !in v.node.saved
  {
    var c := TWO_BLOCK_ROUNDS;
    DuoOk(b);
    assert Fits(c, v.node, b.parent);
    ConcludedBase(c, v.node.saved, b);
    ScratchAnswer(c, v.node.saved, b);
    NextFits(c, v.node, Step(b, st), blocks, v.best, v.best);
  }

  lemma {:induction false} FactOf(b: Id, p: Id, n: nat, digest: nat, st: BftState)
    requires IsDuo(b) && b.Child? && b.parent == p && b.digest == digest && b.header.totalScore == Number(p) + 1 == n
    requires StateOf(TWO_BLOCK_ROUNDS, b) == Ok(st) && !(st.committed && Multiple(TWO_BLOCK_ROUNDS, n + 1))
    ensures Fact(b, p, n, digest, st)
  {
  }

  lemma {:induction false} FactsX()
    ensures Fact(X1, G, 1, 0, BftState(1, true, false)) && Fact(X2, X1, 2, 0, BftState(2, true, false))
    ensures Fact(X3, X2, 3, 0, BftState(2, true, false)) && Fact(X4, X3, 4, 0, BftState(2, false, false))
    ensures IsDuo(X5) && X5.Child? && X5.parent == X4 && Number(X5) == 5 && X5.digest == 0
    ensures StateOf(TWO_BLOCK_ROUNDS, X5) == Ok(BftState(3, true, true))
  {
    Heights();
    AllDuo();
    FirstState();
    StatesX();
    FactOf(X1, G, 1, 0, BftState(1, true, false));
    FactOf(X2, X1, 2, 0, BftState(2, true, false));
    FactOf(X3, X2, 3, 0, BftState(2, true, false));
    FactOf(X4, X3, 4, 0, BftState(2, false, false));
  }

  lemma {:induction false} FactsY()
    ensures Fact(Y2, X1, 2, 1, BftState(2, true, false)) && Fact(Y3, Y2, 3, 1, BftState(2, true, false))
    ensures Fact(Y4, Y3, 4, 1, BftState(3, true, false)) && Fact(Y5, Y4, 5, 1, BftState(3, true, false))
    ensures Fact(Y6, Y5, 6, 1, BftState(4, true, true))
    ensures IsDuo(Y7) && Y7.Child? && Y7.parent == Y6 && Number(Y7) == 7 && Y7.digest == 1
    ensures StateOf(TWO_BLOCK_ROUNDS, Y7) == Ok(BftState(4, true, true))
  {
    Heights();
    Multiples();
    AllDuo();
    StatesY();
    FactOf(Y2, X1, 2, 1, BftState(2, true, false));
    FactOf(Y3, Y2, 3, 1, BftState(2, true, false));
    FactOf(Y4, Y3, 4, 1, BftState(3, true, false));
    FactOf(Y5, Y4, 5, 1, BftState(3, true, false));
    FactOf(Y6, Y5, 6, 1, BftState(4, true, true));
  }

  /** The signer's run: at blocks 3 and 4 of the first branch, and at block 6 of the other. */
  datatype Way = Way(view: View, blocks: set<Id>, run: seq<Arrival>)

  ghost predicate OnWay(w: Way, best: Id) {
    Reached(w.view, w.blocks, w.run) && w.view.best == best && best in w.blocks
  }

  lemma {:induction false} Ways(x1: Id, x2: Id, x3: Id, x4: Id, y2: Id, y3: Id, y4: Id, y5: Id, y6: Id) returns (u: Way, m: Way, s: Way)
    requires Fact(x1, G, 1, 0, BftState(1, true, false)) && Fact(x2, x1, 2, 0, BftState(2, true, false))
    requires Fact(x3, x2, 3, 0, BftState(2, true, false)) && Fact(x4, x3, 4, 0, BftState(2, false, false))
    requires Fact(y2, x1, 2, 1, BftState(2, true, false)) && Fact(y3, y2, 3, 1, BftState(2, true, false))
    requires Fact(y4, y3, 4, 1, BftState(3, true, false)) && Fact(y5, y4, 5, 1, BftState(3, true, false))
    requires Fact(y6, y5, 6, 1, BftState(4, true, true))
    ensures OnWay(u, x3) && OnWay(m, x4) && OnWay(s, y6) && u.run <= m.run <= s.run
    ensures Room(u.blocks, 4, 0) && Room(m.blocks, 5, 0) && Room(s.blocks, 7, 1)
    ensures BlocksOf(u.run) == [x1] + [x2] + [x3] && BlocksOf(m.run) == BlocksOf(u.run) + [x4]
    ensures BlocksOf(s.run) == BlocksOf(m.run) + [y2] + [y3] + [y4] + [y5] + [y6]
  {
    var v, blocks, run := Trunk(x1, x2, x3);
    u := Way(v, blocks, run);
    v, run := TakeChild(v, blocks, run, x4, 4, 0, BftState(2, false, false), BftState(2, true, false));
    blocks := blocks + {x4};
    m := Way(v, blocks, run);
    v, blocks, run := Branch(v, blocks, run, x1, x4, y2, y3, y4);
    v, blocks, run := Growth(v, blocks, run, y4, y5, y6);
    s := Way(v, blocks, run);
  }

  lemma {:induction false} Ancestors()
    ensures Ancestor(X4, 3) == X3 && Ancestor(X4, 2) == X2 && Ancestor(X4, 1) == X1 && Ancestor(X3, 2) == X2
    ensures Ancestor(Y6, 5) == Y5 && Ancestor(Y6, 4) == Y4 && Ancestor(Y6, 3) == Y3 && Ancestor(Y6, 1) == X1 && Ancestor(Y4, 2) == Y2
  {
    Heights();
    assert Ancestor(X2, 1) == X1 && Ancestor(X3, 1) == X1;
    assert Ancestor(Y2, 1) == X1 && Ancestor(Y3, 1) == X1 && Ancestor(Y4, 1) == X1 && Ancestor(Y5, 1) == X1;
    assert Ancestor(Y4, 3) == Y3 && Ancestor(Y5, 3) == Y3 && Ancestor(Y5, 4) == Y4 && Ancestor(Y3, 2) == Y2;
  }

  /** Neither of the two checkpoints is on the other's chain. */
  lemma {:induction false} Conflict()
    ensures !OnOneChain(X2, Y4)
  {
    Heights();
    Ancestors();
    assert X2.digest != Y2.digest;
  }

  lemma {:induction false} SideX(m: Way)
    requires OnWay(m, X4) && Room(m.blocks, 5, 0)
    ensures var x := Step(X5, BftState(3, true, true));
            && Commits(TWO_BLOCK_ROUNDS, m.view.node, x) && Found(TWO_BLOCK_ROUNDS, m.view.node, x)
            && Commit(TWO_BLOCK_ROUNDS, m.view.node, x).finalized == X2
  {
    FactsX();
    Ancestors();
    RoomNext(m.blocks, X5, 5, 0);
    CanCommit(m.view, m.blocks, m.run, X5, BftState(3, true, true));
    FinalizesX(m.view.node, X1, X2, X3, X4, X5);
  }

  lemma {:induction false} SideY(s: Way)
    requires OnWay(s, Y6) && Room(s.blocks, 7, 1)
    ensures var y := Step(Y7, BftState(4, true, true));
            && Commits(TWO_BLOCK_ROUNDS, s.view.node, y) && Found(TWO_BLOCK_ROUNDS, s.view.node, y)
            && Commit(TWO_BLOCK_ROUNDS, s.view.node, y).finalized == Y4
  {
    FactsX();
    FactsY();
    Ancestors();
    RoomNext(s.blocks, Y7, 7, 1);
    CanCommit(s.view, s.blocks, s.run, Y7, BftState(4, true, true));
    FinalizesY(s.view.node, X1, Y3, Y4, Y5, Y6, Y7);
  }

  /** The signer is in the COM quorum of a round that ends at `b`, if it signed there, and with COM only. */
  lemma {:induction false} InQuorum(b: Id)
    requires b.Child? && b.parent.Child? && b.parent.parent.Child? && Multiple(TWO_BLOCK_ROUNDS, Number(b) + 1)
    requires b.header.com && b.parent.header.com && (b.header.signer == 2 || b.parent.header.signer == 2)
    ensures 2 in ComSignersOf(TWO_BLOCK_ROUNDS, b)
  {
    var c := TWO_BLOCK_ROUNDS;
    OddRound(b);
    var vs := Ballots(c, [b] + [b.parent]);
    assert vs[0] == BallotOf(c, b) && vs[1] == BallotOf(c, b.parent) && vs[0] in vs && vs[1] in vs;
  }

  lemma {:induction false} InBothQuorums()
    ensures 2 in ComSignersOf(TWO_BLOCK_ROUNDS, X5) && 2 in ComSignersOf(TWO_BLOCK_ROUNDS, Y7)
  {
    Heights();
    Multiples();
    InQuorum(X5);
    InQuorum(Y7);
  }

  /** Without any cast the signer may vote COM. */
  lemma {:induction false} FirstVote(u: Way, parent: Id, st: BftState)
    requires OnWay(u, parent) && 3 <= Number(parent) && StateOf(TWO_BLOCK_ROUNDS, parent) == Ok(st) && st.justified
    ensures VotesOn(TWO_BLOCK_ROUNDS, G, map[], u.view.node.saved, parent, st)
  {
    RuleAllows(u.view, u.blocks, u.run, parent, st, map[]);
  }

  /** With one cast it may vote COM, if the head's quality is higher by two. */
  lemma {:induction false} LaterVote(s: Way, parent: Id, st: BftState, cast: Id, quality: nat)
    requires OnWay(s, parent) && 3 <= Number(parent) && StateOf(TWO_BLOCK_ROUNDS, parent) == Ok(st) && st.justified
    requires quality + 1 < st.quality
    ensures VotesOn(TWO_BLOCK_ROUNDS, G, map[cast := quality], s.view.node.saved, parent, st)
  {
    RuleAllows(s.view, s.blocks, s.run, parent, st, map[cast := quality]);
  }

  /** The cast of block 4. */
  lemma {:induction false} CastOf(u: Way, x3: Id, x4: Id, x5: Id, st: BftState)
    requires OnWay(u, x3) && Room(u.blocks, 4, 0) && Fact(x4, x3, 4, 0, st) && x5.Child? && x5.parent == x4
    ensures HasCast(TWO_BLOCK_ROUNDS, map[x4 := st.quality], x5, x4, u.view.node.saved, st)
  {
    var c := TWO_BLOCK_ROUNDS;
    RoomNext(u.blocks, x4, 4, 0);
    CanCommit(u.view, u.blocks, u.run, x4, st);
    Multiples();
    CheckpointUnique(c, 4, 4);
    CheckpointUnique(c, 5, 4);
    assert Number(x5) == 5 && Ancestor(x5, 4) == x4;
  }

  /**
   * The signer sees blocks 1 to 3, packs block 4 on its best block with COM, then sees the other branch overtake and packs
   * its block 7 on the best block with COM, both times as the rule lets it. It is in the COM quorum of block 5, which
   * finalizes block 2, and in that of block 7, which finalizes block 4 of the other branch.
   */
  lemma {:induction false} OvertakenSigner() returns (u: Way, m: Way, s: Way)
    ensures OnWay(u, X3) && OnWay(m, X4) && OnWay(s, Y6) && u.run <= m.run <= s.run
    ensures BlocksOf(s.run) == [X1] + [X2] + [X3] + [X4] + [Y2] + [Y3] + [Y4] + [Y5] + [Y6]
    ensures VotesOn(TWO_BLOCK_ROUNDS, G, map[], u.view.node.saved, X3, BftState(2, true, false))
    ensures VotesOn(TWO_BLOCK_ROUNDS, G, map[X4 := 2], s.view.node.saved, Y6, BftState(4, true, true))
    ensures HasCast(TWO_BLOCK_ROUNDS, map[X4 := 2], X5, X4, u.view.node.saved, BftState(2, false, false))
    ensures 2 in ComSignersOf(TWO_BLOCK_ROUNDS, X5) && 2 in ComSignersOf(TWO_BLOCK_ROUNDS, Y7)
    ensures var x, y := Step(X5, BftState(3, true, true)), Step(Y7, BftState(4, true, true));
            && Commits(TWO_BLOCK_ROUNDS, m.view.node, x) && Found(TWO_BLOCK_ROUNDS, m.view.node, x)
            && Commits(TWO_BLOCK_ROUNDS, s.view.node, y) && Found(TWO_BLOCK_ROUNDS, s.view.node, y)
            && !OnOneChain(Commit(TWO_BLOCK_ROUNDS, m.view.node, x).finalized, Commit(TWO_BLOCK_ROUNDS, s.view.node, y).finalized)
  {
    FactsX();
    FactsY();
    u, m, s := Ways(X1, X2, X3, X4, Y2, Y3, Y4, Y5, Y6);
    SideX(m);
    SideY(s);
    Conflict();
    InBothQuorums();
    FirstVote(u, X3, BftState(2, true, false));
    LaterVote(s, Y6, BftState(4, true, true), X4, 2);
    CastOf(u, X3, X4, X5, BftState(2, false, false));
  }
}
