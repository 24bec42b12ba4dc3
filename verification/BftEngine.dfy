/** The BFT engine: cached computation of states, search for checkpoints, finalization, fork choice and voting. */
module BftEngine {
  import opened Wrappers
  import opened BlockTree
  import opened BftVotes
  import opened BftRounds
  import opened BftTallies
  import opened BftAnswers
  import opened BftSearch
  import opened BftFinality
  import opened BftQuorums
  import opened BftForkChoice

  /** `js` holds a tally of `b`, on top of the quality saved for the round before. */
  ghost predicate Tallies(c: Config, saved: Saved, js: Justifier, b: Id)
    requires ValidConfig(c)
    reads js
  {
    && js.Valid() && InRounds(c, b) && Based(c, saved, b) && RoundAt(c, saved, b) == Ok(js.round)
    && exists k: nat :: InTally(c, b, k) && TallyFrom(c, b, k) == Some(js.votes)
  }

  /** Cached states are answers, whose base was saved. */
  ghost predicate StatesSound(c: Config, saved: Saved, states: map<Id, BftState>)
    requires ValidConfig(c)
  {
    forall b :: b in states ==> Based(c, saved, b) && IsAnswer(c, saved, b, Ok(states[b]))
  }

  ghost predicate QualitiesExact(saved: Saved, qualities: map<Id, nat>) {
    forall b :: b in qualities ==> qualities[b] == SavedQuality(saved, b)
  }

  lemma {:induction false} RoundCheckpoint(c: Config, saved: Saved, b: Id)
    requires ValidConfig(c) && InRounds(c, b) && RoundAt(c, saved, b).Ok?
    ensures RoundAt(c, saved, b).value.checkpoint == Checkpoint(c, Number(b))
  {
  }

  /** A block that starts no round has the round parameters of its parent. */
  lemma {:induction false} RoundKept(c: Config, saved: Saved, b: Id)
    requires ValidConfig(c) && InRounds(c, b) && InRounds(c, b.parent) && Checkpoint(c, Number(b)) != Number(b)
    ensures RoundAt(c, saved, b) == RoundAt(c, saved, b.parent) && (Based(c, saved, b) <==> Based(c, saved, b.parent))
  {
    ParentRound(c, b);
    assert LastBefore(c, b) == LastBefore(c, b.parent);
  }

  /** A tally of the parent, with just `b` added, is a tally of `b`. */
  lemma {:induction false} ExtendTally(c: Config, b: Id, k: nat)
    requires ValidConfig(c) && InRounds(c, b) && InRounds(c, b.parent) && Checkpoint(c, Number(b)) != Number(b)
    requires InTally(c, b.parent, k) && TallyFrom(c, b.parent, k).Some?
    ensures InTally(c, b, k) && TallyFrom(c, b, k) == AddWalk(c, TallyFrom(c, b.parent, k).value, b, Number(b))
  {
    ParentRound(c, b);
  }

  class Engine {
    const c: Config
    var saved: Saved
    var finalized: Id
    var casts: map<Id, nat>
    var states: map<Id, BftState>
    var qualities: map<Id, nat>
    var justifiers: map<Id, Justifier>

    /** Caches hold answers; each justifier tallies its own block, and no two blocks share one. */
    ghost predicate Valid()
      reads this, justifiers.Values
    {
      && ValidConfig(c)
      && SavedSound(c, saved)
      && Finalizable(c, finalized)
      && StatesSound(c, saved, states)
      && QualitiesExact(saved, qualities)
      && (forall b :: b in justifiers ==> Tallies(c, saved, justifiers[b], b))
      && (forall x, y :: x in justifiers && y in justifiers && x != y ==> justifiers[x] != justifiers[y])
    }

    ghost function AsNode(): Node
      reads this
    {
      Node(saved, finalized)
    }

    /** A new engine: nothing saved yet, the genesis block is finalized. */
    constructor (c: Config, genesis: Id)
      requires ValidConfig(c) && genesis.Genesis?
      ensures Valid() && this.c == c && finalized == genesis && saved == map[] && casts == map[] && justifiers == map[]
    {
      this.c := c;
      finalized := genesis;
      saved, casts, states, qualities, justifiers := map[], map[], map[], map[], map[];
    }

    /** The caches may lose any entries at any time. */
    method Evict()
      requires Valid()
      modifies this`states, this`qualities, this`justifiers
      ensures Valid() && justifiers.Values <= old(justifiers.Values)
    {
      EvictJustifiers();
      var keepStates: set<Id>, keepQualities: set<Id> := *, *;
      states := map b | b in states && b in keepStates :: states[b];
      qualities := map b | b in qualities && b in keepQualities :: qualities[b];
    }

    method EvictJustifiers()
      requires Valid()
      modifies this`justifiers
      ensures Valid() && justifiers.Values <= old(justifiers.Values)
    {
      var keep: set<Id> := *;
      justifiers := map b | b in justifiers && b in keep :: justifiers[b];
    }

    method GetCheckPoint(n: nat) returns (r: nat)
      requires ValidConfig(c)
      ensures r == Checkpoint(c, n)
    {
      QuotientIsCheckpoint(c, n);
      r := n / c.epoch * c.epoch;
    }

    /** Rounds are concluded at their last height. */
    method GetStorePoint(n: nat) returns (r: nat)
      requires ValidConfig(c)
      ensures r == Checkpoint(c, n) + c.epoch - 1
    {
      var checkpoint := GetCheckPoint(n);
      r := checkpoint + c.epoch - 1;
    }

    /** The quality saved for `b`, 0 if none. */
    method GetQuality(b: Id) returns (quality: nat)
      requires Valid()
      modifies this`qualities
      ensures Valid() && quality == SavedQuality(saved, b)
    {
      if b in qualities {
        return qualities[b];
      }
      quality := if b in saved then saved[b] else 0;
      qualities := qualities[b := quality];
    }

    /** Whether a height is in the round of the FINALITY fork. */
    method InForkRound(n: nat) returns (first: bool)
      requires ValidConfig(c)
      ensures first <==> Checkpoint(c, n) == Checkpoint(c, c.finality)
    {
      EngineArithmetic(c, c.finality, n);
      return c.finality / c.epoch == n / c.epoch;
    }

    /** An empty tally for the round of `b`. */
    method NewJustifier(b: Id) returns (r: Result<Justifier, Error>)
      requires Valid() && InRounds(c, b)
      modifies this`qualities
      ensures Valid()
      ensures RoundAt(c, saved, b).Err? ==> r == Err(RoundAt(c, saved, b).error)
      ensures RoundAt(c, saved, b).Ok? ==> r.Ok? && fresh(r.value) && r.value.Valid()
                                           && r.value.round == RoundAt(c, saved, b).value && r.value.votes == map[]
      ensures var staker := LastBefore(c, b).header.staker;
              && (r.Err? <==> staker.posActive && staker.totalWeight == 0)
              && (r.Ok? && staker.posActive ==>
                    var weight := r.value.round.thresholdWeight;
                    r.value.round.thresholdVotes == 0 && 3 * weight <= 2 * staker.totalWeight < 3 * weight + 3)
              && (r.Ok? && !staker.posActive ==>
                    var votes, limit := r.value.round.thresholdVotes, staker.maxProposers;
                    && r.value.round.thresholdWeight == 0
                    && (1 <= limit <= 101 ==> 3 * votes <= 2 * limit < 3 * votes + 3)
                    && (limit == 0 || limit > 101 ==> votes == 67))
    {
      var checkpoint := GetCheckPoint(Number(b));
      var last := Ancestor(b.parent, if checkpoint > 0 then checkpoint - 1 else 0);
      var first := InForkRound(Number(b));
      var parentQuality := 0;
      if !first {
        parentQuality := GetQuality(last);
      }
      var round := StartRound(checkpoint, parentQuality, last.header.staker);
      if round.Err? {
        return Err(round.error);
      }
      var js := new Justifier(round.value);
      return Ok(js);
    }

    /** Removes a tally from the cache. */
    method RemoveJustifier(b: Id) returns (entry: Option<Justifier>)
      requires Valid()
      modifies this`justifiers
      ensures Valid() && justifiers.Values <= old(justifiers.Values)
      ensures entry.Some? ==> Tallies(c, saved, entry.value, b)
                              && entry.value in old(justifiers.Values) && entry.value !in justifiers.Values
    {
      entry := if b in justifiers then Some(justifiers[b]) else None;
      justifiers := justifiers - {b};
    }

    /** Takes the parent's tally out of the cache if it can be extended, else starts an empty one. */
    method TakeJustifier(b: Id) returns (r: Result<Justifier, Error>, end: nat, ghost k: nat)
      requires Valid() && InRounds(c, b) && Based(c, saved, b)
      modifies this`qualities, this`justifiers
      ensures Valid() && justifiers.Values <= old(justifiers.Values) && InTally(c, b, k)
      ensures r.Err? ==> RoundAt(c, saved, b) == Err(r.error)
      ensures r.Ok? ==>
                && RoundAt(c, saved, b) == Ok(r.value.round) && r.value.Valid()
                && r.value !in justifiers.Values && (r.value in old(justifiers.Values) || fresh(r.value))
                && TallyFrom(c, b, k) == AddWalk(c, r.value.votes, b, end)
    {
      var checkpoint := GetCheckPoint(Number(b));
      var entry := RemoveJustifier(b.parent);
      if checkpoint != Number(b) && entry.Some? {
        r, end := Ok(entry.value), Number(b);
        ghost var h: nat :| InTally(c, b.parent, h) && TallyFrom(c, b.parent, h) == Some(entry.value.votes);
        k := h;
        RoundKept(c, saved, b);
        ExtendTally(c, b, k);
      } else {
        k := Number(b);
        r := NewJustifier(b);
        end := 0;
        if r.Ok? {
          end := r.value.round.checkpoint;
          RoundCheckpoint(c, saved, b);
        }
      }
    }

    /** Adds one block to `js`, weighing its signer by the parent's state if PoS may be active. */
    method AddBallot(h: Id, js: Justifier) returns (ok: bool)
      requires js.Valid()
      modifies js
      ensures js.Valid()
      ensures ok <==> HasValidator(c, h)
      ensures ok ==> js.votes == AddVote(old(js.votes), BallotOf(c, h))
    {
      var weight := 0;
      if UsesStake(c, Number(h)) {
        var staker := h.parent.header.staker;
        if staker.posActive {
          if h.header.signer !in staker.weights {
            return false;
          }
          weight := staker.weights[h.header.signer];
        }
      }
      js.AddBlock(h.header.signer, h.header.com, weight);
      return true;
    }

    /**
     * Adds the blocks from `b` back to height `end` to `js`, until a block turns up whose signer is
     * not a validator.
     */
    method AddBlocks(b: Id, js: Justifier, end: nat, ghost k: nat) returns (ok: bool)
      requires Valid() && js !in justifiers.Values
      requires InRounds(c, b) && js.Valid() && k <= Number(b) && TallyFrom(c, b, k) == AddWalk(c, js.votes, b, end)
      modifies js
      ensures Valid() && js.Valid()
      ensures TallyFrom(c, b, k) == if ok then Some(js.votes) else None
    {
      var h := b;
      while Number(h) >= c.finality
        invariant js.Valid()
        invariant TallyFrom(c, b, k) == if Number(h) >= c.finality then AddWalk(c, js.votes, h, end) else Some(js.votes)
        decreases h
      {
        var added := AddBallot(h, js);
        if !added {
          return false;
        }
        if Number(h) <= end {
          break;
        }
        h := h.parent;
      }
      return true;
    }

    /** Caches a state and its tally. */
    method Remember(b: Id, st: BftState, js: Justifier)
      requires Valid() && IsAnswer(c, saved, b, Ok(st)) && Tallies(c, saved, js, b) && js !in justifiers.Values
      modifies this`states, this`justifiers
      ensures Valid() && justifiers.Values <= old(justifiers.Values) + {js}
    {
      states := states[b := st];
      justifiers := justifiers[b := js];
    }

    /**
     * The state of `b`, by extending the parent's tally or rebuilding the round: always an answer by one of the
     * block's tallies, and the state from scratch if the round is stable.
     */
    method ComputeState(b: Id) returns (r: Result<BftState, Error>)
      requires Valid() && (b.Child? ==> Concluded(c, saved, b.parent))
      modifies this`states, this`qualities, this`justifiers, justifiers.Values
      ensures Valid() && fresh(justifiers.Values - old(justifiers.Values))
      ensures IsAnswer(c, saved, b, r)
      ensures SavedExact(c, saved) && StableBlock(c, b) ==> r == StateOf(c, b)
      ensures r.Ok? && InRounds(c, b) ==> ByQuorum(c, b, r.value)
    {
      r := Answer(b);
      if r.Ok? && InRounds(c, b) {
        AnswerByQuorum(c, saved, b, r.value);
      }
      if SavedExact(c, saved) && StableBlock(c, b) {
        ExactAnswer(c, saved, b, r);
      }
    }

    method Answer(b: Id) returns (r: Result<BftState, Error>)
      requires Valid() && (b.Child? ==> Concluded(c, saved, b.parent))
      modifies this`states, this`qualities, this`justifiers, justifiers.Values
      ensures Valid() && fresh(justifiers.Values - old(justifiers.Values))
      ensures IsAnswer(c, saved, b, r)
    {
      if b in states {
        return Ok(states[b]);
      }
      if Number(b) == 0 || Number(b) < c.finality {
        return Ok(BftState(0, false, false));
      }
      ConcludedBase(c, saved, b);
      r := AnswerAnew(b);
      Evict();
    }

    /** Answers for a block that has no cached state. */
    method AnswerAnew(b: Id) returns (r: Result<BftState, Error>)
      requires Valid() && InRounds(c, b) && Based(c, saved, b)
      modifies this`states, this`qualities, this`justifiers, justifiers.Values
      ensures Valid() && fresh(justifiers.Values - old(justifiers.Values))
      ensures IsAnswer(c, saved, b, r)
    {
      var taken, end, k := TakeJustifier(b);
      if taken.Err? {
        assert Err(taken.error) == StateFrom(c, saved, b, k);
        return Err(taken.error);
      }
      var js := taken.value;
      var ok := AddBlocks(b, js, end, k);
      if !ok {
        assert Err(ValidatorNotFound) == StateFrom(c, saved, b, k);
        return Err(ValidatorNotFound);
      }
      var st := js.Summarize();
      assert Ok(st) == StateFrom(c, saved, b, k);
      Remember(b, st, js);
      return Ok(st);
    }

    /** The quality saved for the round with index `i` from `start` on the chain of `head`, if that is on the chain. */
    method QualityOfRound(head: Id, start: nat, i: nat, ghost qs: seq<nat>) returns (r: Option<nat>)
      requires Valid() && Concluded(c, saved, head) && SearchRange(c, start, Number(head))
      requires start < U32 && Number(head) < U32 && i < |qs| && Searched(c, saved, start, head, qs)
      modifies this`qualities
      ensures Valid()
      ensures start <= Number(head) ==> r == Some(qs[i])
      ensures start > Number(head) && i == |qs| / 2 && NoWrap(c, start, Number(head)) ==> r == None
    {
      var s := StoreHeight(start, i, head, qs);
      if s > Number(head) {
        return None;
      }
      var q := GetQuality(Ancestor(head, s));
      return Some(q);
    }

    /** The height at which the round with index `i` from `start` ends, in 32 bits. */
    method StoreHeight(start: nat, i: nat, head: Id, ghost qs: seq<nat>) returns (s: nat)
      requires ValidConfig(c) && SearchRange(c, start, Number(head))
      requires start < U32 && Number(head) < U32 && i < |qs| && Searched(c, saved, start, head, qs)
      ensures start <= Number(head) ==>
                s == At(c, start, i) + c.epoch - 1 && IsRound(c, start, i, Number(head)) && qs[i] == QualityAt(c, saved, At(c, start, i), head)
      ensures start > Number(head) && i == |qs| / 2 && NoWrap(c, start, Number(head)) ==> s > Number(head)
    {
      if start <= Number(head) {
        RoundInRange(c, start, Number(head), i, |qs|);
      } else if NoWrap(c, start, Number(head)) {
        WrappedProbe(c, start, Number(head));
      }
      s := Store32(c, start + i * c.epoch);
    }

    /**
     * Binary search for the first checkpoint from the finalized one on whose round reaches `target`.
     * The caller ensures that the round of `head` is concluded.
     */
    method FindCheckpoint(target: nat, f: Id, head: Id) returns (r: Result<Id, Error>)
      requires Valid() && Finalizable(c, f) && Concluded(c, saved, head)
      requires c.finality <= Number(head) && Multiple(c, Number(head) + 1)
      requires Number(f) < U32 && Number(head) < U32
      modifies this`qualities
      ensures Valid()
      ensures SearchStart(c, f) <= Number(head) ==> r == CheckpointFor(c, saved, target, SearchStart(c, f), head)
      ensures SearchStart(c, f) > Number(head) && NoWrap(c, SearchStart(c, f), Number(head)) ==> r.Err?
    {
      QuotientIsCheckpoint(c, c.finality);
      var start := if Number(f) == 0 then c.finality / c.epoch * c.epoch else Number(f);
      var n := RoundCount(c, start, Number(head));
      ghost var qs := SearchedExists(c, saved, start, head);
      var num := Search(target, start, head, n, qs);
      if num.None? {
        return Err(NotOnChain);
      }
      r := CheckpointOfRound(target, start, head, n, num.value, qs);
    }

    /** The checkpoint of the round that the search stopped at, if the round has exactly the target quality. */
    method CheckpointOfRound(target: nat, start: nat, head: Id, n: nat, i: nat, ghost qs: seq<nat>) returns (r: Result<Id, Error>)
      requires Valid() && Concluded(c, saved, head) && SearchRange(c, start, Number(head))
      requires start < U32 && Number(head) < U32 && i <= n == |qs| && Searched(c, saved, start, head, qs)
      requires start <= Number(head) ==> (i > 0 ==> qs[i - 1] < target) && (i < n ==> qs[i] >= target)
      modifies this`qualities
      ensures Valid()
      ensures start <= Number(head) ==> r == CheckpointFor(c, saved, target, start, head)
    {
      if start <= Number(head) {
        assert i < n ==> IsRound(c, start, i, Number(head));
        SearchResult(c, saved, target, start, qs, i, head);
      }
      if i == n {
        return Err(QualityNotFound);
      }
      var q := QualityOfRound(head, start, i, qs);
      if q.None? {
        return Err(NotOnChain);
      }
      if q.value != target {
        return Err(QualityNotFound);
      }
      var height := RoundHeight(start, i, head, qs);
      if height > Number(head) {
        return Err(NotOnChain);
      }
      return Ok(Ancestor(head, height));
    }

    /** The height at which the round with index `i` from `start` starts, in 32 bits. */
    method RoundHeight(start: nat, i: nat, head: Id, ghost qs: seq<nat>) returns (n: nat)
      requires ValidConfig(c) && Number(head) < U32 && i < |qs| && Searched(c, saved, start, head, qs)
      ensures start <= Number(head) ==> n == At(c, start, i) <= Number(head)
    {
      AtIsProduct(c, start, i);
      assert start <= Number(head) ==> IsRound(c, start, i, Number(head));
      n := Word(start + i * c.epoch);
    }

    /** Binary search over the round indices below `n`; none if a probe is off the chain. */
    method Search(target: nat, start: nat, head: Id, n: nat, ghost qs: seq<nat>) returns (r: Option<nat>)
      requires Valid() && Concluded(c, saved, head) && SearchRange(c, start, Number(head))
      requires start < U32 && Number(head) < U32 && n == |qs| && Searched(c, saved, start, head, qs)
      modifies this`qualities
      ensures Valid()
      ensures start <= Number(head) ==> r.Some?
      ensures start > Number(head) && NoWrap(c, start, Number(head)) ==> r.None?
      ensures r.Some? ==> r.value <= n
      ensures start <= Number(head) ==> (r.value > 0 ==> qs[r.value - 1] < target) && (r.value < n ==> qs[r.value] >= target)
    {
      var i, j := 0, n;
      while i < j
        invariant Valid() && 0 <= i <= j <= n
        invariant start > Number(head) && NoWrap(c, start, Number(head)) ==> i == 0 && j == n
        invariant start <= Number(head) && i > 0 ==> qs[i - 1] < target
        invariant start <= Number(head) && j < n ==> qs[j] >= target
      {
        var h := (i + j) / 2;
        var q := QualityOfRound(head, start, h, qs);
        if q.None? {
          return None;
        }
        if q.value >= target {
          j := h;
        } else {
          i := h + 1;
        }
      }
      return Some(i);
    }

    /** Whether blocks on top of `parent` are compatible with the finalized checkpoint. */
    method Accepts(parent: Id) returns (ok: bool)
      ensures ok <==> Accepted(finalized, parent)
    {
      if Number(finalized) != 0 {
        return Number(finalized) <= Number(parent) && Ancestor(parent, Number(finalized)) == finalized;
      }
      return true;
    }

    /** Saves the quality of a round that `b` ends, and finalizes a checkpoint if the round is committed. */
    method ConcludeRound(b: Id) returns (e: Option<Error>, ghost st: Result<BftState, Error>)
      requires Valid() && b.Child? && b !in saved && Concluded(c, saved, b.parent)
      requires Multiple(c, Number(b) + 1) && Accepted(finalized, b.parent) && Number(b) < U32
      modifies this`saved, this`finalized, this`states, this`qualities, this`justifiers, justifiers.Values
      ensures Valid() && fresh(justifiers.Values - old(justifiers.Values)) && IsAnswer(c, old(saved), b, st)
      ensures st.Err? ==> saved == old(saved) && finalized == old(finalized) && e == Some(st.error)
      ensures st.Ok? ==> saved == old(saved)[b := st.value.quality] && finalized == NextFinalized(c, saved, old(finalized), b, st.value)
      ensures st.Ok? ==> Concluded(c, saved, b) && (e.Some? <==> FinalizationFails(c, old(finalized), b, st.value))
    {
      var state := ComputeState(b);
      st := state;
      if state.Err? {
        return Some(state.error), st;
      }
      e := Settle(b, state.value);
    }

    method Settle(b: Id, st: BftState) returns (e: Option<Error>)
      requires Valid() && b.Child? && b !in saved && Concluded(c, saved, b.parent) && IsAnswer(c, saved, b, Ok(st))
      requires Multiple(c, Number(b) + 1) && Accepted(finalized, b.parent) && Number(b) < U32
      modifies this`saved, this`finalized, this`qualities
      ensures Valid() && Concluded(c, saved, b)
      ensures saved == old(saved)[b := st.quality] && finalized == NextFinalized(c, saved, old(finalized), b, st)
      ensures e.Some? <==> FinalizationFails(c, old(finalized), b, st)
    {
      SaveQuality(b, st);
      e := FinalizeIfCommitted(b, st);
    }

    method FinalizeIfCommitted(b: Id, st: BftState) returns (e: Option<Error>)
      requires Valid() && b.Child? && b in saved && saved[b] == st.quality && IsAnswer(c, saved, b, Ok(st)) && Concluded(c, saved, b)
      requires Multiple(c, Number(b) + 1) && Accepted(finalized, b.parent) && Number(b) < U32
      modifies this`finalized, this`qualities
      ensures Valid() && finalized == NextFinalized(c, saved, old(finalized), b, st)
      ensures e.Some? <==> FinalizationFails(c, old(finalized), b, st)
    {
      e := None;
      if st.committed && st.quality > 1 {
        e := Finalize(b, st);
      }
    }

    /** Finalizes the first checkpoint that reaches the quality before that of the committed round of `b`. */
    method Finalize(b: Id, st: BftState) returns (e: Option<Error>)
      requires Valid() && Finalizes(c, b, st) && Settled(c, saved, b, st) && Concluded(c, saved, b)
      requires Accepted(finalized, b.parent) && Number(b) < U32
      modifies this`finalized, this`qualities
      ensures Valid() && finalized == NextFinalized(c, saved, old(finalized), b, st)
      ensures e.Some? <==> FinalizationFails(c, old(finalized), b, st)
    {
      FinalizationFound(c, saved, finalized, b, st);
      var id := FindCheckpoint(st.quality - 1, finalized, b);
      if id.Err? {
        return Some(id.error);
      }
      SetFinalized(id.value);
      return None;
    }

    method SetFinalized(id: Id)
      requires Valid() && Finalizable(c, id)
      modifies this`finalized
      ensures Valid() && finalized == id
    {
      finalized := id;
    }

    /**
     * Commits a block: concludes its round if the block ends it, and records the vote if the block was packed here.
     * `st` and `vote` are the states answered for the two.
     */
    method CommitBlock(b: Id, isPacking: bool) returns (e: Option<Error>, ghost st: Result<BftState, Error>, ghost vote: Result<BftState, Error>)
      requires Valid() && b.Child? && b !in saved && Concluded(c, saved, b.parent)
      requires Accepted(finalized, b.parent) && Number(b) < U32
      modifies this, justifiers.Values
      ensures Valid() && fresh(justifiers.Values - old(justifiers.Values))
      ensures IsAnswer(c, old(saved), b, st) && IsAnswer(c, old(saved), b, vote)
      ensures st.Ok? ==> AsNode() == Commit(c, old(AsNode()), Step(b, st.value)) && Concluded(c, saved, b)
      ensures st.Err? ==> AsNode() == old(AsNode())
      ensures e.Some? <==> (st.Ok? && FinalizationFails(c, old(finalized), b, st.value)) || ((Multiple(c, Number(b) + 1) || isPacking) && st.Err?)
      ensures casts == if isPacking && e.None? && vote.Ok? then old(casts)[Ancestor(b, Checkpoint(c, Number(b))) := vote.value.quality]
                       else old(casts)
    {
      ConcludedBase(c, saved, b);
      ghost var before := saved;
      e, st := ConcludeAtEnd(b);
      vote := st;
      if e.Some? {
        return;
      }
      if isPacking {
        e, vote := MarkVoted(b, before, st);
      }
    }

    method EndsItsRound(b: Id) returns (ends: bool)
      requires ValidConfig(c)
      ensures ends <==> Multiple(c, Number(b) + 1)
    {
      var storePoint := GetStorePoint(Number(b));
      EndsRound(c, Number(b));
      return storePoint == Number(b);
    }

    /** Concludes the round of a block if the block ends it. */
    method ConcludeAtEnd(b: Id) returns (e: Option<Error>, ghost st: Result<BftState, Error>)
      requires Valid() && b.Child? && b !in saved && Concluded(c, saved, b.parent)
      requires Accepted(finalized, b.parent) && Number(b) < U32
      modifies this`saved, this`finalized, this`states, this`qualities, this`justifiers, justifiers.Values
      ensures Valid() && fresh(justifiers.Values - old(justifiers.Values)) && IsAnswer(c, old(saved), b, st)
      ensures st.Ok? ==> AsNode() == Commit(c, old(AsNode()), Step(b, st.value)) && Concluded(c, saved, b)
      ensures st.Err? ==> AsNode() == old(AsNode())
      ensures e.Some? <==> (st.Ok? && FinalizationFails(c, old(finalized), b, st.value)) || (Multiple(c, Number(b) + 1) && st.Err?)
      ensures Concluded(c, saved, b.parent) && (saved == old(saved) || (st.Ok? && saved == old(saved)[b := st.value.quality]))
    {
      var ends := EndsItsRound(b);
      if ends {
        ghost var node := AsNode();
        e, st := ConcludeRound(b);
        if st.Ok? {
          ConcludedParent(c, saved, b);
          RoundCommitted(c, node, AsNode(), Step(b, st.value));
        }
        return;
      }
      e := None;
      st := GoesOn(c, AsNode(), b);
    }

    method MarkVoted(b: Id, ghost before: Saved, ghost st: Result<BftState, Error>) returns (e: Option<Error>, ghost vote: Result<BftState, Error>)
      requires Valid() && b.Child? && Concluded(c, saved, b.parent)
      requires b !in before && Based(c, before, b) && IsAnswer(c, before, b, st)
      requires saved == before || (st.Ok? && saved == before[b := st.value.quality])
      modifies this`casts, this`states, this`qualities, this`justifiers, justifiers.Values
      ensures Valid() && fresh(justifiers.Values - old(justifiers.Values))
      ensures IsAnswer(c, before, b, vote) && (e.Some? <==> st.Err?) && (e.None? ==> vote.Ok?)
      ensures casts == if e.None? then old(casts)[Ancestor(b, Checkpoint(c, Number(b))) := vote.value.quality] else old(casts)
    {
      var state := ComputeState(b);
      vote := state;
      SameAnswers(c, before, saved, b, st, state);
      if state.Err? {
        return Some(state.error), vote;
      }
      var checkpoint := GetCheckPoint(Number(b));
      casts := casts[Ancestor(b, checkpoint) := state.value.quality];
      return None, vote;
    }

    /** Whether `b` should replace `best` as the head of the chain. */
    method Select(b: Id, best: Id) returns (r: Result<bool, Error>, ghost st: Result<BftState, Error>, ghost bestSt: Result<BftState, Error>)
      requires Valid()
      requires b.Child? ==> Concluded(c, saved, b.parent)
      requires best.Child? ==> Concluded(c, saved, best.parent)
      modifies this`states, this`qualities, this`justifiers, justifiers.Values
      ensures Valid() && fresh(justifiers.Values - old(justifiers.Values))
      ensures IsAnswer(c, saved, b, st) && (st.Ok? ==> IsAnswer(c, saved, best, bestSt))
      ensures r.Ok? <==> st.Ok? && bestSt.Ok?
      ensures r.Ok? ==> (r.value <==> PreferredBy(b, st.value.quality, best, bestSt.value.quality))
      ensures r.Ok? && st.value.quality != bestSt.value.quality ==> (r.value <==> st.value.quality > bestSt.value.quality)
      ensures r.Ok? && st.value.quality == bestSt.value.quality ==>
                (r.value <==>
                  || b.header.totalScore > best.header.totalScore
                  || (b.header.totalScore == best.header.totalScore && Number(b) < Number(best))
                  || (b.header.totalScore == best.header.totalScore && Number(b) == Number(best) && b.digest < best.digest))
      ensures r.Ok? && SavedExact(c, saved) && StableBlock(c, b) && StableBlock(c, best) ==> (r.value <==> Preferred(c, b, best))
    {
      var state := ComputeState(b);
      st, bestSt := state, state;
      if state.Err? {
        return Err(state.error), st, bestSt;
      }
      var bestState := ComputeState(best);
      bestSt := bestState;
      if bestState.Err? {
        return Err(bestState.error), st, bestSt;
      }
      if state.value.quality != bestState.value.quality {
        return Ok(state.value.quality > bestState.value.quality), st, bestSt;
      }
      return Ok(BetterThan(b, best)), st, bestSt;
    }

    /** The block that ended the round before that of `b`. */
    method LastRoundEnd(b: Id) returns (last: Id)
      requires ValidConfig(c) && 0 < Checkpoint(c, Number(b))
      ensures Number(last) == Checkpoint(c, Number(b)) - 1 && last == Ancestor(b, Checkpoint(c, Number(b)) - 1)
    {
      CheckpointBefore(c, Number(b));
      var storePoint := GetStorePoint(Number(b) - c.epoch);
      last := Ancestor(b, storePoint);
    }

    /** The most recent justified checkpoint on the chain of `parent`, whose state is `st`. */
    method FindRecentJustified(parent: Id, st: BftState) returns (r: Result<Id, Error>)
      requires Valid() && InRounds(c, parent) && IsAnswer(c, saved, parent, Ok(st)) && st.quality > 0
      requires Concluded(c, saved, parent.parent) && Number(parent) < U32 && Number(finalized) < U32
      modifies this`qualities
      ensures Valid()
      ensures RecentJustified(c, saved, finalized, parent, st).Ok? ==> r == RecentJustified(c, saved, finalized, parent, st)
      ensures RecentJustified(c, saved, finalized, parent, st).Err? && NoWrap(c, SearchStart(c, finalized), Number(parent)) ==> r.Err?
    {
      if st.justified {
        var checkpoint := GetCheckPoint(Number(parent));
        return Ok(Ancestor(parent, checkpoint));
      }
      r := FindLastJustified(parent, st);
    }

    /** The checkpoint of the most recent justified round, when the current round is not justified. */
    method FindLastJustified(parent: Id, st: BftState) returns (r: Result<Id, Error>)
      requires Valid() && InRounds(c, parent) && IsAnswer(c, saved, parent, Ok(st)) && st.quality > 0 && !st.justified
      requires Concluded(c, saved, parent.parent) && Number(parent) < U32 && Number(finalized) < U32
      modifies this`qualities
      ensures Valid()
      ensures RecentJustified(c, saved, finalized, parent, st).Ok? ==> r == RecentJustified(c, saved, finalized, parent, st)
      ensures RecentJustified(c, saved, finalized, parent, st).Err? && NoWrap(c, SearchStart(c, finalized), Number(parent)) ==> r.Err?
    {
      SearchBelow(c, saved, finalized, parent, st);
      var prev := LastRoundEnd(parent);
      ConcludedBefore(c, saved, parent, Number(prev));
      r := FindCheckpoint(st.quality, finalized, prev);
    }

    /** Whether to vote COM on top of `parent`, for which the state `st` was answered. */
    method ShouldVote(parent: Id) returns (r: Result<bool, Error>, ghost st: Result<BftState, Error>)
      requires Valid() && (parent.Child? ==> Concluded(c, saved, parent.parent))
      requires Number(parent) < U32 && Number(finalized) < U32
      modifies this`states, this`qualities, this`justifiers, justifiers.Values
      ensures Valid() && fresh(justifiers.Values - old(justifiers.Values))
      ensures Checkpoint(c, Number(parent) + 1) == Checkpoint(c, c.finality) ==> r == Ok(false)
      ensures Checkpoint(c, Number(parent) + 1) != Checkpoint(c, c.finality) ==>
                && IsAnswer(c, saved, parent, st)
                && (st.Err? ==> r.Err?)
                && (st.Ok? && st.value.quality == 0 ==> r == Ok(false))
                && (st.Ok? && st.value.quality > 0 ==>
                      && (RecentJustified(c, saved, finalized, parent, st.value).Ok? ==>
                            r == Ok(MayVote(finalized, casts, RecentJustified(c, saved, finalized, parent, st.value).value, st.value.quality)))
                      && (NoWrap(c, SearchStart(c, finalized), Number(parent)) ==>
                            RecentJustified(c, saved, finalized, parent, st.value).Err? ==> r.Err?))
    {
      st := Ok(BftState(0, false, false));
      var first := InForkRound(Number(parent) + 1);
      if first {
        return Ok(false), st;
      }
      var state := ComputeState(parent);
      st := state;
      if state.Err? {
        return Err(state.error), st;
      }
      if state.value.quality == 0 {
        return Ok(false), st;
      }
      r := VoteOn(parent, state.value);
    }

    method VoteOn(parent: Id, st: BftState) returns (r: Result<bool, Error>)
      requires Valid() && InRounds(c, parent) && IsAnswer(c, saved, parent, Ok(st)) && st.quality > 0
      requires Concluded(c, saved, parent.parent) && Number(parent) < U32 && Number(finalized) < U32
      modifies this`qualities
      ensures Valid()
      ensures RecentJustified(c, saved, finalized, parent, st).Ok? ==>
                r == Ok(MayVote(finalized, casts, RecentJustified(c, saved, finalized, parent, st).value, st.quality))
      ensures RecentJustified(c, saved, finalized, parent, st).Err? && NoWrap(c, SearchStart(c, finalized), Number(parent)) ==> r.Err?
    {
      var recent := FindRecentJustified(parent, st);
      if recent.Err? {
        return Err(recent.error);
      }
      var ok := NoConflict(recent.value, st.quality);
      return Ok(ok);
    }

    /** No cast from the finalized checkpoint on, with quality at least `headQuality` - 1, conflicts with `recent`. */
    method NoConflict(recent: Id, headQuality: nat) returns (ok: bool)
      requires headQuality > 0
      ensures ok <==> forall x :: x in casts && Number(finalized) <= Number(x) && casts[x] + 1 >= headQuality ==> OnOneChain(x, recent)
    {
      var rest := casts.Keys;
      while rest != {}
        invariant rest <= casts.Keys
        invariant forall x :: x in casts && x !in rest && Number(finalized) <= Number(x) && casts[x] + 1 >= headQuality ==> OnOneChain(x, recent)
        decreases |rest|
      {
        var x :| x in rest;
        rest := rest - {x};
        if Number(x) >= Number(finalized) && casts[x] >= headQuality - 1 {
          var includes := if Number(x) > Number(recent) then IsAncestor(recent, x) else IsAncestor(x, recent);
          if !includes {
            assert !OnOneChain(x, recent);
            return false;
          }
        }
      }
      return true;
    }

    method SaveQuality(b: Id, st: BftState)
      requires Valid() && b.Child? && b !in saved && Concluded(c, saved, b.parent) && Multiple(c, Number(b) + 1)
      requires IsAnswer(c, saved, b, Ok(st))
      modifies this`saved, this`qualities
      ensures Valid() && saved == old(saved)[b := st.quality] && Concluded(c, saved, b) && IsAnswer(c, saved, b, Ok(st))
    {
      ghost var more := saved[b := st.quality];
      ConcludedBase(c, saved, b);
      ConcludedNext(c, saved, more, b);
      SavedGrows(c, saved, b, st);
      SavedChildren(c, more);
      AnswerKept(c, saved, more, b);
      StatesKept(c, saved, more, states);
      forall x | x in justifiers ensures Tallies(c, more, justifiers[x], x) {
        TallyKept(c, saved, more, justifiers[x], x);
      }
      saved := saved[b := st.quality];
      qualities := qualities[b := st.quality];
    }
  }

  lemma {:induction false} StatesKept(c: Config, saved: Saved, more: Saved, states: map<Id, BftState>)
    requires ValidConfig(c) && StatesSound(c, saved, states)
    requires forall x :: x in saved ==> x in more && more[x] == saved[x]
    requires forall x :: x in more ==> x.Child?
    ensures StatesSound(c, more, states)
  {
    forall b | b in states ensures Based(c, more, b) && IsAnswer(c, more, b, Ok(states[b])) {
      AnswerKept(c, saved, more, b);
    }
  }

  lemma {:induction false} TallyKept(c: Config, saved: Saved, more: Saved, js: Justifier, b: Id)
    requires ValidConfig(c) && Tallies(c, saved, js, b)
    requires forall x :: x in saved ==> x in more && more[x] == saved[x]
    requires forall x :: x in more ==> x.Child?
    ensures Tallies(c, more, js, b)
  {
    AnswerKept(c, saved, more, b);
  }

  lemma {:induction false} ExactAnswer(c: Config, saved: Saved, b: Id, r: Result<BftState, Error>)
    requires ValidConfig(c) && SavedSound(c, saved) && SavedExact(c, saved) && StableBlock(c, b)
    requires (b.Child? ==> Concluded(c, saved, b.parent)) && IsAnswer(c, saved, b, r)
    ensures r == StateOf(c, b)
  {
    if b.Child? {
      SavedChildren(c, saved);
      ConcludedBase(c, saved, b);
      ExactSavedBase(c, saved, b);
      AnswerIsScratch(c, saved, b, r);
    }
  }

  /** There is always an answer: that of rebuilding the round. */
  ghost function SomeAnswer(c: Config, saved: Saved, b: Id): (r: Result<BftState, Error>)
    requires ValidConfig(c)
    ensures IsAnswer(c, saved, b, r)
  {
    if InRounds(c, b) then
      assert InTally(c, b, Number(b));
      StateFrom(c, saved, b, Number(b))
    else Ok(BftState(0, false, false))
  }

  /** A block that ends its round is committed by saving its quality and moving finality. */
  lemma {:induction false} RoundCommitted(c: Config, node: Node, next: Node, s: Step)
    requires ValidConfig(c) && Multiple(c, Number(s.block) + 1) && next.saved == node.saved[s.block := s.state.quality]
    requires next.finalized == NextFinalized(c, next.saved, node.finalized, s.block, s.state)
    ensures next == Commit(c, node, s)
  {
  }

  /** A block that does not end its round leaves everything as it was, whatever its state. */
  lemma {:induction false} GoesOn(c: Config, node: Node, b: Id) returns (st: Result<BftState, Error>)
    requires ValidConfig(c) && b.Child? && Concluded(c, node.saved, b.parent) && !Multiple(c, Number(b) + 1)
    ensures IsAnswer(c, node.saved, b, st) && Concluded(c, node.saved, b)
    ensures st.Ok? ==> Commit(c, node, Step(b, st.value)) == node && !FinalizationFails(c, node.finalized, b, st.value)
  {
    ConcludedNext(c, node.saved, node.saved, b);
    st := SomeAnswer(c, node.saved, b);
  }

  /** What is saved for `b` itself does not matter to the answers for `b`; and either all of them fail or none. */
  lemma {:induction false} SameAnswers(c: Config, before: Saved, saved: Saved, b: Id, st: Result<BftState, Error>, vote: Result<BftState, Error>)
    requires ValidConfig(c) && b.Child? && b !in before && IsAnswer(c, before, b, st) && IsAnswer(c, saved, b, vote)
    requires saved == before || (st.Ok? && saved == before[b := st.value.quality])
    ensures IsAnswer(c, before, b, vote) && (vote.Err? <==> st.Err?)
  {
    if InRounds(c, b) {
      assert LastBefore(c, b) != b;
      assert RoundAt(c, saved, b) == RoundAt(c, before, b);
      var k: nat :| InTally(c, b, k) && vote == StateFrom(c, saved, b, k);
      assert vote == StateFrom(c, before, b, k);
      AnswerFails(c, before, b, st);
      AnswerFails(c, before, b, vote);
    }
  }

  /** What the search for the checkpoint to finalize yields. */
  lemma {:induction false} FinalizationFound(c: Config, saved: Saved, finalized: Id, b: Id, st: BftState)
    requires ValidConfig(c) && SavedSound(c, saved) && Finalizable(c, finalized) && Finalizes(c, b, st) && Settled(c, saved, b, st)
    requires Concluded(c, saved, b) && Accepted(finalized, b.parent)
    ensures SearchStart(c, finalized) <= Number(b)
    ensures var id := CheckpointFor(c, saved, st.quality - 1, SearchStart(c, finalized), b);
            && (id.Err? <==> FinalizationFails(c, finalized, b, st))
            && NextFinalized(c, saved, finalized, b, st) == (if id.Ok? then id.value else finalized)
            && (id.Ok? ==> Finalizable(c, id.value))
  {
    StartInRange(c, finalized, b);
    FinalizationFoundIff(c, saved, finalized, b, st);
    if CheckpointFor(c, saved, st.quality - 1, SearchStart(c, finalized), b).Ok? {
      CheckpointForIsFirst(c, saved, st.quality - 1, SearchStart(c, finalized), b);
    }
  }

  /** The search that finds the most recent justified checkpoint if the round of `parent` is not justified. */
  lemma {:induction false} SearchBelow(c: Config, saved: Saved, finalized: Id, parent: Id, st: BftState)
    requires ValidConfig(c) && InRounds(c, parent) && IsAnswer(c, saved, parent, Ok(st)) && st.quality > 0 && !st.justified
    ensures var n, start := Checkpoint(c, Number(parent)), SearchStart(c, finalized);
            && 0 < n && c.finality < n
            && RecentJustified(c, saved, finalized, parent, st) ==
                 if n - 1 < start then Err(NotOnChain) else CheckpointFor(c, saved, st.quality, start, Ancestor(parent, n - 1))
  {
    RoundBeforeUnjustified(c, saved, parent, st);
  }

  lemma {:induction false} ConcludedBefore(c: Config, saved: Saved, b: Id, n: nat)
    requires ValidConfig(c) && b.Child? && Concluded(c, saved, b.parent) && n < Number(b)
    ensures Concluded(c, saved, Ancestor(b, n))
  {
    ConcludedBelow(c, saved, b.parent, n);
    assert Ancestor(b, n) == Ancestor(b.parent, n);
  }

  /** If the current round is not justified but has a quality, there is a round before it. */
  lemma {:induction false} RoundBeforeUnjustified(c: Config, saved: Saved, b: Id, st: BftState)
    requires ValidConfig(c) && InRounds(c, b) && IsAnswer(c, saved, b, Ok(st)) && !st.justified && st.quality > 0
    ensures c.finality < Checkpoint(c, Number(b))
  {
    AnswerQuality(c, saved, b, st);
    LaterRound(c, Number(b));
  }

  lemma {:induction false} CheckpointBefore(c: Config, n: nat)
    requires ValidConfig(c) && 0 < Checkpoint(c, n)
    ensures c.epoch <= Checkpoint(c, n) && Checkpoint(c, n - c.epoch) == Checkpoint(c, n) - c.epoch
  {
    MultipleStep(c, Checkpoint(c, n));
    CheckpointUnique(c, n - c.epoch, Checkpoint(c, n) - c.epoch);
  }
}
