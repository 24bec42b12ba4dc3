/**
 * Producing and validating a block: the packer adopts transactions one by one and undoes those it
 * cannot adopt; the validator checks and replays the transactions of a finished block.
 */
module Packing {
  import opened Wrappers
  import opened StackedMaps
  import opened TxFees
  import opened TxRuntime
  import opened TxExecutors

  const TX_GAS: nat := 5000
  const CLAUSE_GAS: nat := 16000

  /**
   * What closes a block: the roots, and under proof of stake the check of the staker contract's balance and the
   * writes that distribute the rewards. `corrected` is the receipts root listed for this block, if there is one.
   */
  datatype Closing = Closing(
    txsRoot: seq<Tx> -> nat, receiptsRoot: seq<Receipt> -> nat, stateRoot: World -> nat, corrected: Option<nat>,
    posActive: bool, balanced: World -> bool, rewards: World -> Option<World>)

  /** The block being built or checked, on top of a chain of blocks; `run` is what executing a transaction does. */
  datatype Context = Context(
    env: Env, run: (World, Tx) -> Option<Done>, number: nat, gasLimit: nat, chainTag: nat, features: set<nat>,
    blocklistFork: nat, blocked: set<Address>, finalityFork: nat,
    onChain: (nat, nat) -> bool, meta: nat -> Option<bool>, minPriorityFee: nat, closing: Closing)

  ghost predicate Faithful(c: Context) {
    Sane(c.env) && forall w, t {:trigger Executed(c.env, w, t)} :: c.run(w, t) == Executed(c.env, w, t)
  }

  // ---------- Checks on a transaction alone ----------

  predicate IsBlocked(c: Context, addr: Address) {
    c.number >= c.blocklistFork && addr in c.blocked
  }

  predicate Supported(c: Context, t: Tx) {
    t.features <= c.features && !t.unusedReserved
  }

  predicate Expired(c: Context, t: Tx) {
    c.number > t.blockRef + t.expiration
  }

  /** What the validator demands of each transaction in the body of a block. */
  ghost predicate BodyAccepts(c: Context, t: Tx) {
    && t.origin.Signer? && (c.blocklistFork <= c.number ==> t.origin.addr !in c.blocked)
    && (t.delegator.Some? ==> t.delegator.value.Signer? && (c.blocklistFork <= c.number ==> t.delegator.value.addr !in c.blocked))
    && t.chainTag == c.chainTag && t.blockRef <= c.number <= t.blockRef + t.expiration
    && (!c.env.galactica ==> t.fee.Legacy?)
    && t.features <= c.features && !t.unusedReserved
  }

  /** What no block with this number accepts. An origin that cannot be recovered counts as the zero address here. */
  ghost predicate Barred(c: Context, t: Tx) {
    || (c.blocklistFork <= c.number && (if t.origin.Signer? then t.origin.addr else 0) in c.blocked)
    || (t.delegator.Some? && t.delegator.value.Unrecoverable?)
    || (t.delegator.Some? && c.blocklistFork <= c.number && t.delegator.value.addr in c.blocked)
    || t.chainTag != c.chainTag || t.blockRef + t.expiration < c.number || (!c.env.galactica && !t.fee.Legacy?)
    || !(t.features <= c.features) || t.unusedReserved
  }

  // ---------- Replaying transactions ----------

  /** The state of a block under way: the world, the transactions processed, the gas used and the receipts. */
  datatype Ledger = Ledger(world: World, processed: map<nat, bool>, gasUsed: nat, receipts: seq<Receipt>)

  predicate HasTx(c: Context, processed: map<nat, bool>, t: Tx) {
    t.id in processed || c.onChain(t.id, t.blockRef)
  }

  /** Whether a transaction was found, and whether it was reverted. */
  function FindDep(c: Context, processed: map<nat, bool>, id: nat): Option<bool> {
    if id in processed then Some(processed[id]) else c.meta(id)
  }

  predicate DepFulfilled(c: Context, processed: map<nat, bool>, t: Tx) {
    t.dependsOn.Some? ==> FindDep(c, processed, t.dependsOn.value) == Some(false)
  }

  ghost function Record(l: Ledger, t: Tx, d: Done): Ledger {
    var gasUsed := (l.gasUsed + d.receipt.gasUsed) % 0x1_0000_0000_0000_0000;
    Ledger(d.world, l.processed[t.id := d.receipt.reverted], gasUsed, l.receipts + [d.receipt])
  }

  /** The transaction is not there yet, and one that it depends on is there and was not reverted. */
  ghost predicate Stands(c: Context, processed: map<nat, bool>, t: Tx) {
    && t.id !in processed && !c.onChain(t.id, t.blockRef)
    && (t.dependsOn.Some? ==>
          if t.dependsOn.value in processed then !processed[t.dependsOn.value] else c.meta(t.dependsOn.value) == Some(false))
  }

  /** Execution of a transaction that is new and whose dependency is fulfilled. */
  ghost function NextDone(c: Context, w: World, processed: map<nat, bool>, t: Tx): Option<Done> {
    if Stands(c, processed, t) then c.run(w, t) else None
  }

  ghost function Verified(c: Context, w: World, txs: seq<Tx>): Option<Ledger> {
    if txs == [] then Some(Ledger(w, map[], 0, []))
    else
      var l := Verified(c, w, txs[..|txs| - 1]);
      if l.None? then None
      else
        var d := NextDone(c, l.value.world, l.value.processed, txs[|txs| - 1]);
        if d.None? then None else Some(Record(l.value, txs[|txs| - 1], d.value))
  }

  lemma {:induction false} VerifiedNext(c: Context, w: World, txs: seq<Tx>, i: nat)
    requires i < |txs| && Verified(c, w, txs[..i]).Some?
    ensures var l := Verified(c, w, txs[..i]).value;
            var d := NextDone(c, l.world, l.processed, txs[i]);
            Verified(c, w, txs[..i + 1]) == if d.None? then None else Some(Record(l, txs[i], d.value))
  {
    assert txs[..i + 1][..i] == txs[..i];
  }

  /** What is not verified at some point is not verified later. */
  lemma {:induction false} VerifiedPrefix(c: Context, w: World, txs: seq<Tx>, n: nat)
    requires n <= |txs| && Verified(c, w, txs[..n]).None?
    ensures Verified(c, w, txs).None?
    decreases |txs|
  {
    if n < |txs| {
      assert txs[..|txs| - 1][..n] == txs[..n];
      VerifiedPrefix(c, w, txs[..|txs| - 1], n);
    } else {
      assert txs[..n] == txs;
    }
  }

  // ---------- What holds of all transactions of a block ----------

  /** The transaction that depends on `id` comes after one with this id that was not reverted, or the chain has such a one. */
  ghost predicate Met(c: Context, txs: seq<Tx>, receipts: seq<Receipt>, id: nat)
    requires |txs| == |receipts|
  {
    || (exists j :: 0 <= j < |txs| && txs[j].id == id && !receipts[j].reverted)
    || (c.meta(id) == Some(false) && forall j :: 0 <= j < |txs| ==> txs[j].id != id)
  }

  /** No transaction is on the chain or twice in the block, and all dependencies are met by what comes before. */
  ghost predicate Orderly(c: Context, txs: seq<Tx>, receipts: seq<Receipt>) {
    && |txs| == |receipts|
    && (forall i :: 0 <= i < |txs| ==> !c.onChain(txs[i].id, txs[i].blockRef))
    && (forall i, j :: 0 <= i < j < |txs| ==> txs[i].id != txs[j].id)
    && (forall i :: 0 <= i < |txs| && txs[i].dependsOn.Some? ==> Met(c, txs[..i], receipts[..i], txs[i].dependsOn.value))
  }

  /** The transaction is neither on the chain nor in the block before, and what it depends on is met. */
  ghost predicate CanFollow(c: Context, txs: seq<Tx>, receipts: seq<Receipt>, t: Tx)
    requires |txs| == |receipts|
  {
    && !c.onChain(t.id, t.blockRef) && (forall j :: 0 <= j < |txs| ==> txs[j].id != t.id)
    && (t.dependsOn.Some? ==> Met(c, txs, receipts, t.dependsOn.value))
  }

  /** What is recorded of the transactions so far. */
  ghost predicate Recorded(txs: seq<Tx>, l: Ledger) {
    && |l.receipts| == |txs|
    && (forall j :: 0 <= j < |txs| ==> txs[j].id in l.processed && l.processed[txs[j].id] == l.receipts[j].reverted)
    && (forall id :: id in l.processed ==> exists j :: 0 <= j < |txs| && txs[j].id == id)
  }

  lemma {:induction false} RecordedNext(txs: seq<Tx>, l: Ledger, t: Tx, d: Done)
    requires Recorded(txs, l) && t.id !in l.processed
    ensures Recorded(txs + [t], Record(l, t, d))
  {
    var all, l' := txs + [t], Record(l, t, d);
    forall id | id in l'.processed ensures exists j :: 0 <= j < |all| && all[j].id == id {
      if id == t.id {
        assert all[|txs|].id == id;
      } else {
        var j :| 0 <= j < |txs| && txs[j].id == id;
        assert all[j].id == id;
      }
    }
  }

  lemma {:induction false} StandsIff(c: Context, txs: seq<Tx>, l: Ledger, t: Tx)
    requires Recorded(txs, l)
    ensures Stands(c, l.processed, t) <==> CanFollow(c, txs, l.receipts, t)
  {
  }

  lemma {:induction false} OrderlyNext(c: Context, txs: seq<Tx>, receipts: seq<Receipt>, t: Tx, receipt: Receipt)
    requires Orderly(c, txs, receipts) && CanFollow(c, txs, receipts, t)
    ensures Orderly(c, txs + [t], receipts + [receipt])
  {
    var all, rs := txs + [t], receipts + [receipt];
    forall i | 0 <= i < |all| && all[i].dependsOn.Some? ensures Met(c, all[..i], rs[..i], all[i].dependsOn.value) {
      if i < |txs| {
        assert all[..i] == txs[..i] && rs[..i] == receipts[..i];
      } else {
        assert all[..i] == txs && rs[..i] == receipts;
      }
    }
  }

  lemma {:induction false} VerifiedRecorded(c: Context, w: World, txs: seq<Tx>)
    requires Verified(c, w, txs).Some?
    ensures Recorded(txs, Verified(c, w, txs).value)
    ensures Orderly(c, txs, Verified(c, w, txs).value.receipts)
  {
    if txs != [] {
      var n := |txs| - 1;
      var l := Verified(c, w, txs[..n]).value;
      var d := NextDone(c, l.world, l.processed, txs[n]).value;
      VerifiedRecorded(c, w, txs[..n]);
      assert txs == txs[..n] + [txs[n]];
      RecordedNext(txs[..n], l, txs[n], d);
      StandsIff(c, txs[..n], l, txs[n]);
      OrderlyNext(c, txs[..n], l.receipts, txs[n], d.receipt);
    }
  }

  /**
   * A block goes on with a transaction if and only if that is not on the chain nor in the block before, what it depends on
   * is met, and it can be executed where the block is.
   */
  lemma {:induction false} VerifiedIff(c: Context, w: World, txs: seq<Tx>, t: Tx)
    requires Verified(c, w, txs).Some?
    ensures var l := Verified(c, w, txs).value;
            |l.receipts| == |txs| && (Verified(c, w, txs + [t]).Some? <==> CanFollow(c, txs, l.receipts, t) && c.run(l.world, t).Some?)
  {
    var l := Verified(c, w, txs).value;
    VerifiedRecorded(c, w, txs);
    StandsIff(c, txs, l, t);
    assert (txs + [t])[..|txs|] == txs && (txs + [t])[|txs|] == t;
    VerifiedNext(c, w, txs + [t], |txs|);
    assert (txs + [t])[..|txs| + 1] == txs + [t];
  }

  ghost function TotalGas(receipts: seq<Receipt>): nat {
    if receipts == [] then 0 else TotalGas(receipts[..|receipts| - 1]) + receipts[|receipts| - 1].gasUsed
  }

  ghost predicate GasAddsUp(l: Ledger) {
    l.gasUsed == TotalGas(l.receipts) % 0x1_0000_0000_0000_0000
  }

  lemma {:induction false} WrapTwice(x: nat, y: nat)
    ensures (x % 0x1_0000_0000_0000_0000 + y) % 0x1_0000_0000_0000_0000 == (x + y) % 0x1_0000_0000_0000_0000
  {
  }

  lemma {:induction false} GasNext(l: Ledger, t: Tx, d: Done)
    requires GasAddsUp(l)
    ensures GasAddsUp(Record(l, t, d))
  {
    assert (l.receipts + [d.receipt])[..|l.receipts|] == l.receipts;
    WrapTwice(TotalGas(l.receipts), d.receipt.gasUsed);
  }

  /** The gas used by a block is what its receipts add up to, in 64 bits. */
  lemma {:induction false} VerifiedGas(c: Context, w: World, txs: seq<Tx>)
    requires Verified(c, w, txs).Some?
    ensures GasAddsUp(Verified(c, w, txs).value)
  {
    if txs != [] {
      var n := |txs| - 1;
      var l := Verified(c, w, txs[..n]).value;
      VerifiedGas(c, w, txs[..n]);
      GasNext(l, txs[n], NextDone(c, l.world, l.processed, txs[n]).value);
    }
  }

  // ---------- The validator ----------

  /** A finished block: its transactions, and what the header says of them and of the state after them. */
  datatype Body = Body(txs: seq<Tx>, com: bool, gasUsed: nat, txsRoot: nat, receiptsRoot: nat, stateRoot: nat)

  method ValidateBlockBody(c: Context, b: Body) returns (ok: bool)
    ensures ok <==> b.txsRoot == c.closing.txsRoot(b.txs) && forall i :: 0 <= i < |b.txs| ==> BodyAccepts(c, b.txs[i])
  {
    var txs := b.txs;
    if b.txsRoot != c.closing.txsRoot(txs) {
      return false;
    }
    for i := 0 to |txs|
      invariant forall k :: 0 <= k < i ==> BodyAccepts(c, txs[k])
    {
      var t := txs[i];
      if t.origin.Unrecoverable? || IsBlocked(c, t.origin.addr) {
        return false;
      }
      if t.delegator.Some? && (t.delegator.value.Unrecoverable? || IsBlocked(c, t.delegator.value.addr)) {
        return false;
      }
      if t.chainTag != c.chainTag || c.number < t.blockRef || Expired(c, t) || (!c.env.galactica && !t.fee.Legacy?) {
        return false;
      }
      if !Supported(c, t) {
        return false;
      }
    }
    return true;
  }

  /** Runs the next transaction of a block, if it can stand where it is. */
  method VerifyNext(c: Context, rt: Runtime, processed: map<nat, bool>, t: Tx) returns (r: Option<Receipt>)
    requires rt.Valid() && rt.env == c.env && Faithful(c)
    modifies rt.sm
    ensures rt.Valid()
    ensures var d := NextDone(c, old(rt.World()), processed, t);
            (if r.Some? then Some(Done(rt.World(), r.value)) else None) == d
  {
    if HasTx(c, processed, t) || !DepFulfilled(c, processed, t) {
      return None;
    }
    r := ExecuteTransaction(rt, t);
  }

  /** Where the validator is after some transactions, apart from the world. */
  datatype Tally = Tally(processed: map<nat, bool>, gasUsed: nat, receipts: seq<Receipt>)

  function LedgerOf(w: World, t: Tally): Ledger {
    Ledger(w, t.processed, t.gasUsed, t.receipts)
  }

  /** Runs a transaction and takes it into the tally. */
  method VerifyStep(c: Context, rt: Runtime, tally: Tally, t: Tx) returns (r: Option<Tally>)
    requires rt.Valid() && rt.env == c.env && Faithful(c)
    modifies rt.sm
    ensures rt.Valid()
    ensures var d := NextDone(c, old(rt.World()), tally.processed, t);
            && (r.Some? <==> d.Some?)
            && (r.Some? ==> LedgerOf(rt.World(), r.value) == Record(LedgerOf(old(rt.World()), tally), t, d.value))
  {
    var receipt := VerifyNext(c, rt, tally.processed, t);
    if receipt.None? {
      return None;
    }
    var total := Wrap64(tally.gasUsed + receipt.value.gasUsed);
    return Some(Tally(tally.processed[t.id := receipt.value.reverted], total, tally.receipts + [receipt.value]));
  }

  /** Runs all transactions of a block; fails at the first one that cannot stand where it is. */
  method VerifyTransactions(c: Context, rt: Runtime, txs: seq<Tx>) returns (r: Option<(seq<Receipt>, nat)>)
    requires rt.Valid() && rt.env == c.env && Faithful(c)
    modifies rt.sm
    ensures rt.Valid()
    ensures r.Some? <==> Verified(c, old(rt.World()), txs).Some?
    ensures r.Some? ==> var l := Verified(c, old(rt.World()), txs).value;
                        r.value == (l.receipts, l.gasUsed) && rt.World() == l.world
    ensures r.Some? ==> Orderly(c, txs, r.value.0) && r.value.1 == TotalGas(r.value.0) % 0x1_0000_0000_0000_0000
  {
    ghost var w := rt.World();
    var tally := Tally(map[], 0, []);
    for i := 0 to |txs|
      invariant rt.Valid()
      invariant Verified(c, w, txs[..i]) == Some(LedgerOf(rt.World(), tally))
    {
      VerifiedNext(c, w, txs, i);
      var next := VerifyStep(c, rt, tally, txs[i]);
      if next.None? {
        VerifiedPrefix(c, w, txs, i + 1);
        return None;
      }
      tally := next.value;
    }
    assert txs[..|txs|] == txs;
    VerifiedRecorded(c, w, txs);
    VerifiedGas(c, w, txs);
    return Some((tally.receipts, tally.gasUsed));
  }

  /** The world of a finished block: rewards are distributed once proof of stake is active. */
  ghost function Closed(c: Context, w: World): Option<World> {
    if !c.closing.posActive then Some(w)
    else
      match c.closing.rewards(w)
      case None => None
      case Some(writes) => Some(w + writes)
  }

  method CloseBlock(c: Context, rt: Runtime) returns (ok: bool)
    requires rt.Valid()
    modifies rt.sm
    ensures rt.Valid()
    ensures ok <==> Closed(c, old(rt.World())).Some?
    ensures ok ==> Some(rt.World()) == Closed(c, old(rt.World()))
  {
    if c.closing.posActive {
      var w := rt.Contents();
      var writes := c.closing.rewards(w);
      if writes.None? {
        return false;
      }
      rt.Write(writes.value);
    }
    return true;
  }

  /** The validator accepts the body of a block and what the header says of it, on the world of its parent. */
  ghost predicate Accepts(c: Context, w: World, b: Body) {
    && b.txsRoot == c.closing.txsRoot(b.txs) && (forall i :: 0 <= i < |b.txs| ==> BodyAccepts(c, b.txs[i]))
    && Verified(c, w, b.txs).Some?
    && Concludes(c, Verified(c, w, b.txs).value, b)
  }

  /** The receipts root is right, or is known to be wrong in just this way. */
  predicate ReceiptsAccepted(c: Context, receipts: seq<Receipt>, root: nat) {
    root == c.closing.receiptsRoot(receipts) || c.closing.corrected == Some(c.closing.receiptsRoot(receipts))
  }

  /** The header agrees with the ledger after all transactions, and with the state that closing the block leads to. */
  ghost predicate Concludes(c: Context, l: Ledger, b: Body) {
    && b.gasUsed == l.gasUsed
    && (b.receiptsRoot == c.closing.receiptsRoot(l.receipts) || c.closing.corrected == Some(c.closing.receiptsRoot(l.receipts)))
    && (c.closing.posActive ==> c.closing.balanced(l.world))
    && Closed(c, l.world).Some? && b.stateRoot == c.closing.stateRoot(Closed(c, l.world).value)
  }

  method VerifyBlock(c: Context, rt: Runtime, b: Body) returns (ok: bool)
    requires rt.Valid() && rt.env == c.env && Faithful(c)
    modifies rt.sm
    ensures rt.Valid()
    ensures ok <==> Accepts(c, old(rt.World()), b)
    ensures ok ==> Orderly(c, b.txs, Verified(c, old(rt.World()), b.txs).value.receipts)
    ensures ok ==> Some(rt.World()) == Closed(c, Verified(c, old(rt.World()), b.txs).value.world)
  {
    ok := ValidateBlockBody(c, b);
    if !ok {
      return;
    }
    var r := VerifyTransactions(c, rt, b.txs);
    if r.None? {
      return false;
    }
    ok := Conclude(c, rt, r.value.0, r.value.1, b);
  }

  /** The checks after the last transaction. */
  method Conclude(c: Context, rt: Runtime, receipts: seq<Receipt>, gasUsed: nat, b: Body) returns (ok: bool)
    requires rt.Valid()
    modifies rt.sm
    ensures rt.Valid()
    ensures forall processed :: ok <==> Concludes(c, Ledger(old(rt.World()), processed, gasUsed, receipts), b)
    ensures ok ==> Some(rt.World()) == Closed(c, old(rt.World()))
  {
    if b.gasUsed != gasUsed || !ReceiptsAccepted(c, receipts, b.receiptsRoot) {
      return false;
    }
    var w := rt.Contents();
    if c.closing.posActive && !c.closing.balanced(w) {
      return false;
    }
    ok := CloseBlock(c, rt);
    if ok {
      w := rt.Contents();
      ok := c.closing.stateRoot(w) == b.stateRoot;
    }
  }

  // ---------- The packer ----------

  datatype AdoptError = BadTx | NotAdoptableNow | NotAdoptableForever | KnownTx | GasLimitReached

  /** The guard on gas, in 64 bits. */
  predicate GasFits(c: Context, gasUsed: nat, gas: nat) {
    Wrap64(gasUsed + gas) <= c.gasLimit
  }

  /** The price is below the base fee, once fees are dynamic. */
  predicate PriceTooLow(c: Context, w: World, t: Tx) {
    c.env.galactica && PriceOf(c.env, w, t) < c.env.baseFee
  }

  /** The priority fee is below what the packer asks for, once fees are dynamic. */
  predicate TipTooLow(c: Context, w: World, t: Tx) {
    && c.env.galactica && c.minPriorityFee != 0
    && PriorityFee(t, c.env.baseFee, Value(c.env.src, w, BaseGasPriceCell)) < c.minPriorityFee
  }

  predicate FeeAdequate(c: Context, w: World, t: Tx) {
    !PriceTooLow(c, w, t) && !TipTooLow(c, w, t)
  }

  /** A transaction is adopted exactly if the validator would accept it at this place, its gas fits and its fee is adequate. */
  ghost predicate Adoptable(c: Context, l: Ledger, t: Tx)
  {
    BodyAccepts(c, t) && GasFits(c, l.gasUsed, t.gas) && FeeAdequate(c, l.world, t) && NextDone(c, l.world, l.processed, t).Some?
  }

  /** The 64-bit guard says whether the gas fits, except if the sum wraps around to no more than the limit. */
  lemma {:induction false} GuardExactUnlessWrapped(c: Context, gasUsed: nat, gas: nat)
    requires gasUsed < U64 && gas < U64 && c.gasLimit < U64
    ensures (GasFits(c, gasUsed, gas) <==> gasUsed + gas <= c.gasLimit) <==> !(U64 <= gasUsed + gas <= U64 + c.gasLimit)
  {
  }

  /** For all gas used so far there is such a sum. */
  lemma {:induction false} GuardCanWrap(c: Context, gasUsed: nat)
    requires 0 < gasUsed < U64 && c.gasLimit < U64
    ensures GasFits(c, gasUsed, U64 - gasUsed) && gasUsed + (U64 - gasUsed) > c.gasLimit
  {
  }

  /** The ledger once a transaction is adopted. */
  ghost function After(c: Context, l: Ledger, t: Tx): Ledger
    requires Adoptable(c, l, t)
  {
    Record(l, t, NextDone(c, l.world, l.processed, t).value)
  }

  /** A block in which gas is free, without the later forks, and with none of the transactions on its chain. */
  ghost predicate FreeBlock(c: Context) {
    && Faithful(c) && c.env.baseFee == 0 && !c.env.galactica && Value(c.env.src, [], BaseGasPriceCell) == 0
    && c.blocked == {} && forall id, ref :: !c.onChain(id, ref)
  }

  /** There are such blocks, with any gas limit. */
  lemma {:induction false} FreeBlockExists(gasLimit: nat) returns (c: Context)
    ensures FreeBlock(c) && c.gasLimit == gasLimit
  {
    var env := Env((cell: Cell) => NotFound, (w: World, call: Call) => Broken, (w: World, a: Address) => None, 0, false, 0);
    assert Sane(env);
    var closing := Closing(
      (txs: seq<Tx>) => 0, (rs: seq<Receipt>) => 0, (w: World) => 0, None, false, (w: World) => true, (w: World) => None);
    c := Context(
      env, (w: World, t: Tx) => Executed(env, w, t), 1, gasLimit, 0, {}, 1, {}, 1,
      (id: nat, ref: nat) => false, (id: nat) => None, 0, closing);
    assert Value(c.env.src, [], BaseGasPriceCell) == 0;
  }

  /** The intrinsic gas of a transaction without clauses: that of the transaction and of one clause. */
  const IDLE_GAS: nat := 21000

  /** A transaction without clauses for this block. */
  function Idle(c: Context, id: nat, gas: nat): Tx {
    Tx(id, Signer(1), None, [], gas, Some(TX_GAS + CLAUSE_GAS), Legacy(0), 0, c.chainTag, c.number, 0, {}, false, None)
  }

  lemma {:induction false} FreeRuns(c: Context, w: World, t: Tx)
    requires FreeBlock(c) && Value(c.env.src, w, BaseGasPriceCell) == 0
    requires Resolvable(t) && t.clauses == [] && t.delegator.None? && t.fee.Legacy? && t.fee.coef == 0 && t.work == 0
    ensures var r := c.run(w, t);
            r.Some? && r.value.world == w && r.value.receipt.gasUsed == t.intrinsicGas.value
  {
    FreePrices(c.env, w, t);
    FreeExecuted(c.env, w, t);
  }

  lemma {:induction false} IdleAdoptable(c: Context, l: Ledger, id: nat, gas: nat)
    requires FreeBlock(c) && IDLE_GAS <= gas && l.world == [] && id !in l.processed && GasFits(c, l.gasUsed, gas)
    ensures var t := Idle(c, id, gas);
            && Adoptable(c, l, t)
            && After(c, l, t).world == [] && After(c, l, t).processed.Keys == l.processed.Keys + {id}
            && After(c, l, t).gasUsed == Wrap64(l.gasUsed + IDLE_GAS)
  {
    var t := Idle(c, id, gas);
    FreeRuns(c, l.world, t);
    assert BodyAccepts(c, t) && FeeAdequate(c, l.world, t);
    assert NextDone(c, l.world, l.processed, t) == c.run([], t);
  }

  /** The ledger once all transactions are adopted one after the other, if each of them is. */
  ghost function AfterAll(c: Context, txs: seq<Tx>): Option<Ledger> {
    if txs == [] then Some(Ledger([], map[], 0, []))
    else
      var l := AfterAll(c, txs[..|txs| - 1]);
      if l.Some? && Adoptable(c, l.value, txs[|txs| - 1]) then Some(After(c, l.value, txs[|txs| - 1])) else None
  }

  lemma {:induction false} AfterLast(c: Context, txs: seq<Tx>, t: Tx)
    requires AfterAll(c, txs).Some? && Adoptable(c, AfterAll(c, txs).value, t)
    ensures AfterAll(c, txs + [t]) == Some(After(c, AfterAll(c, txs).value, t))
  {
    assert (txs + [t])[..|txs|] == txs;
  }

  /** Transactions without clauses, each with just enough gas. */
  function Idles(c: Context, n: nat): (txs: seq<Tx>)
    ensures |txs| == n
  {
    if n == 0 then [] else Idles(c, n - 1) + [Idle(c, n - 1, IDLE_GAS)]
  }

  lemma {:induction false} Unwrapped(x: nat)
    requires x < U64
    ensures Wrap64(x) == x && Wrap64(U64) == 0
  {
  }

  /** The ledger when `used` gas is used by transactions that have ids below `n`. */
  ghost predicate FilledTo(c: Context, txs: seq<Tx>, n: nat, used: nat) {
    && AfterAll(c, txs).Some?
    && var l := AfterAll(c, txs).value;
       l.world == [] && l.gasUsed == used && forall id :: id in l.processed ==> id < n
  }

  /** One more transaction whose gas passes the guard is adopted, and uses the least gas. */
  lemma {:induction false} IdleNext(c: Context, txs: seq<Tx>, n: nat, used: nat, gas: nat)
    requires FreeBlock(c) && FilledTo(c, txs, n, used) && IDLE_GAS <= gas && GasFits(c, used, gas) && used + IDLE_GAS < U64
    ensures FilledTo(c, txs + [Idle(c, n, gas)], n + 1, used + IDLE_GAS)
  {
    var l := AfterAll(c, txs).value;
    Unwrapped(used + IDLE_GAS);
    IdleAdoptable(c, l, n, gas);
    AfterLast(c, txs, Idle(c, n, gas));
  }

  lemma {:induction false} Multiples(n: nat)
    requires n > 0
    ensures (n - 1) * IDLE_GAS + IDLE_GAS == n * IDLE_GAS && 0 <= (n - 1) * IDLE_GAS
  {
  }

  /** As many of them as the limit has room for are adopted. */
  lemma {:induction false} IdlesAdopted(c: Context, n: nat)
    requires FreeBlock(c) && n * IDLE_GAS <= c.gasLimit < U64
    ensures FilledTo(c, Idles(c, n), n, n * IDLE_GAS)
  {
    if n > 0 {
      Multiples(n);
      IdlesAdopted(c, n - 1);
      Unwrapped(n * IDLE_GAS);
      IdleNext(c, Idles(c, n - 1), n - 1, (n - 1) * IDLE_GAS, IDLE_GAS);
    }
  }

  /** The room for transactions of this size. */
  lemma {:induction false} RoomFor(gasLimit: nat)
    ensures var n := gasLimit / IDLE_GAS;
            n * IDLE_GAS <= gasLimit < n * IDLE_GAS + IDLE_GAS && (IDLE_GAS <= gasLimit ==> 0 < n)
  {
  }

  /**
   * A block that is filled with the smallest transactions adopts one more if that provides just enough gas for the sum
   * to wrap around, and is then beyond its limit.
   */
  lemma {:induction false} AdoptedBeyondLimit(c: Context)
    requires FreeBlock(c) && IDLE_GAS <= c.gasLimit <= U64 - 2 * IDLE_GAS
    ensures var n := c.gasLimit / IDLE_GAS;
            var txs := Idles(c, n) + [Idle(c, n, U64 - n * IDLE_GAS)];
            AfterAll(c, txs).Some? && AfterAll(c, txs).value.gasUsed > c.gasLimit
  {
    var n := c.gasLimit / IDLE_GAS;
    RoomFor(c.gasLimit);
    IdlesAdopted(c, n);
    GuardCanWrap(c, n * IDLE_GAS);
    IdleNext(c, Idles(c, n), n, n * IDLE_GAS, U64 - n * IDLE_GAS);
  }

  /** What the packer checks before execution; an origin that cannot be recovered counts as the zero address here. */
  ghost predicate Screened(c: Context, l: Ledger, t: Tx) {
    !Barred(c, t) && t.blockRef <= c.number && GasFits(c, l.gasUsed, t.gas) && FeeAdequate(c, l.world, t) && Stands(c, l.processed, t)
  }

  /** Execution fails for what screening lets through although the validator would not. */
  lemma {:induction false} ScreenedAndRun(c: Context, l: Ledger, t: Tx)
    requires Faithful(c)
    ensures Adoptable(c, l, t) <==> Screened(c, l, t) && c.run(l.world, t).Some?
  {
    assert c.run(l.world, t) == Executed(c.env, l.world, t);
  }

  /** The validator accepts these transactions and arrives at this ledger. */
  ghost predicate Replays(c: Context, w: World, txs: seq<Tx>, l: Ledger) {
    (forall i :: 0 <= i < |txs| ==> BodyAccepts(c, txs[i])) && Verified(c, w, txs) == Some(l)
  }

  lemma {:induction false} ReplaysOrderly(c: Context, w: World, txs: seq<Tx>, l: Ledger)
    requires Replays(c, w, txs, l)
    ensures Orderly(c, txs, l.receipts) && GasAddsUp(l)
  {
    VerifiedRecorded(c, w, txs);
    VerifiedGas(c, w, txs);
  }

  lemma {:induction false} ReplaysNext(c: Context, w: World, txs: seq<Tx>, l: Ledger, t: Tx, d: Done)
    requires Replays(c, w, txs, l) && BodyAccepts(c, t) && NextDone(c, l.world, l.processed, t) == Some(d)
    ensures Replays(c, w, txs + [t], Record(l, t, d))
  {
    assert (txs + [t])[..|txs|] == txs;
  }

  /** A sum that passes the guard without wrapping stays within the limit, as less gas is used than was provided. */
  lemma {:induction false} UnwrappedFits(c: Context, gasUsed: nat, gas: nat, used: nat)
    requires GasFits(c, gasUsed, gas) && used <= gas
    ensures gasUsed + gas < U64 ==> Wrap64(gasUsed + used) <= c.gasLimit
  {
  }

  /** One more transaction: what the validator arrives at, and the limit. */
  lemma {:induction false} IncludeNext(c: Context, w: World, txs: seq<Tx>, l: Ledger, t: Tx, d: Done)
    requires Replays(c, w, txs, l) && BodyAccepts(c, t) && NextDone(c, l.world, l.processed, t) == Some(d)
    requires GasFits(c, l.gasUsed, t.gas) && d.receipt.gasUsed <= t.gas
    ensures Replays(c, w, txs + [t], Record(l, t, d))
    ensures l.gasUsed + t.gas < U64 ==> Record(l, t, d).gasUsed <= c.gasLimit
  {
    ReplaysNext(c, w, txs, l, t, d);
    UnwrappedFits(c, l.gasUsed, t.gas, d.receipt.gasUsed);
  }

  class Flow {
    const c: Context
    const rt: Runtime
    var processedTxs: map<nat, bool>
    var gasUsed: nat
    var txs: seq<Tx>
    var receipts: seq<Receipt>
    /** The world of the parent block. */
    ghost const start: World
    /** No sum of gas has wrapped around so far. */
    ghost var unwrapped: bool

    ghost function Book(): Ledger
      reads this, rt.sm
    {
      Ledger(rt.World(), processedTxs, gasUsed, receipts)
    }

    /** The validator, starting at the parent block, accepts what has been adopted, and gets to where the packer is. */
    ghost predicate Valid()
      reads this, rt.sm
    {
      && rt.Valid() && rt.env == c.env && Faithful(c)
      && Replays(c, start, txs, Book()) && (unwrapped ==> gasUsed <= c.gasLimit)
    }

    constructor (c: Context, rt: Runtime)
      requires rt.Valid() && rt.env == c.env && Faithful(c)
      ensures Valid() && this.c == c && this.rt == rt && start == rt.World() && txs == [] && unwrapped
    {
      this.c, this.rt := c, rt;
      processedTxs, gasUsed, txs, receipts := map[], 0, [], [];
      start, unwrapped := rt.World(), true;
    }

    /** The checks before execution. */
    method Screen(t: Tx) returns (e: Option<AdoptError>)
      requires rt.Valid() && rt.env == c.env
      ensures e.None? <==> Screened(c, Book(), t)
      ensures e == Some(BadTx) ==> Barred(c, t) || TipTooLow(c, rt.World(), t)
      ensures e == Some(NotAdoptableNow) ==>
                || c.number < t.blockRef || (!GasFits(c, gasUsed, t.gas) && GasFits(c, gasUsed, TX_GAS + CLAUSE_GAS))
                || PriceTooLow(c, rt.World(), t)
                || (t.dependsOn.Some? && t.dependsOn.value !in processedTxs && c.meta(t.dependsOn.value).None?)
      ensures e == Some(KnownTx) ==> t.id in processedTxs || c.onChain(t.id, t.blockRef)
      ensures e == Some(NotAdoptableForever) ==>
                && t.dependsOn.Some?
                && if t.dependsOn.value in processedTxs then processedTxs[t.dependsOn.value] else c.meta(t.dependsOn.value) == Some(true)
      ensures e == Some(GasLimitReached) ==> !GasFits(c, gasUsed, t.gas) && !GasFits(c, gasUsed, TX_GAS + CLAUSE_GAS)
    {
      if IsBlocked(c, if t.origin.Signer? then t.origin.addr else 0) {
        return Some(BadTx);
      }
      if t.delegator.Some? && (t.delegator.value.Unrecoverable? || IsBlocked(c, t.delegator.value.addr)) {
        return Some(BadTx);
      }
      if !Supported(c, t) || t.chainTag != c.chainTag {
        return Some(BadTx);
      }
      if c.number < t.blockRef {
        return Some(NotAdoptableNow);
      }
      if Expired(c, t) {
        return Some(BadTx);
      }
      if !GasFits(c, gasUsed, t.gas) {
        return if GasFits(c, gasUsed, TX_GAS + CLAUSE_GAS) then Some(NotAdoptableNow) else Some(GasLimitReached);
      }
      var feeError := ScreenFee(t);
      if feeError.Some? {
        return feeError;
      }
      if HasTx(c, processedTxs, t) {
        return Some(KnownTx);
      }
      if t.dependsOn.Some? {
        var dep := FindDep(c, processedTxs, t.dependsOn.value);
        if dep.None? {
          return Some(NotAdoptableNow);
        }
        if dep.value {
          return Some(NotAdoptableForever);
        }
      }
      return None;
    }

    method ScreenFee(t: Tx) returns (e: Option<AdoptError>)
      requires rt.Valid() && rt.env == c.env
      ensures e.None? <==> (!c.env.galactica ==> t.fee.Legacy?) && FeeAdequate(c, rt.World(), t)
      ensures e.Some? ==> e.value == BadTx || e.value == NotAdoptableNow
      ensures e == Some(BadTx) ==> (!c.env.galactica && !t.fee.Legacy?) || TipTooLow(c, rt.World(), t)
      ensures e == Some(NotAdoptableNow) ==> PriceTooLow(c, rt.World(), t)
    {
      if !c.env.galactica {
        return if t.fee.Legacy? then None else Some(BadTx);
      }
      var basePrice := rt.Get(BaseGasPriceCell);
      if EffectiveGasPrice(t, c.env.baseFee, basePrice) < c.env.baseFee {
        return Some(NotAdoptableNow);
      }
      if c.minPriorityFee == 0 {
        return None;
      }
      return if PriorityFee(t, c.env.baseFee, basePrice) < c.minPriorityFee then Some(BadTx) else None;
    }

    /** Adopts a transaction if it can be executed on the current state; else leaves everything as it was. */
    method Adopt(t: Tx) returns (e: Option<AdoptError>)
      requires Valid() && t.gas < U64
      modifies this, rt.sm
      ensures Valid()
      ensures e.None? <==> old(Adoptable(c, Book(), t))
      ensures e.Some? ==> Book() == old(Book()) && rt.sm.Journals() == old(rt.sm.Journals()) && txs == old(txs) && unwrapped == old(unwrapped)
      ensures e.None? ==> txs == old(txs) + [t] && |receipts| == |old(receipts)| + 1
      ensures Orderly(c, txs, receipts) && gasUsed == TotalGas(receipts) % 0x1_0000_0000_0000_0000
      ensures e.None? ==> unwrapped == (old(unwrapped) && old(gasUsed) + t.gas < U64)
    {
      ScreenedAndRun(c, Book(), t);
      ReplaysOrderly(c, start, txs, Book());
      e := Screen(t);
      if e.Some? {
        return;
      }
      ghost var l := Book();
      var r := Execute(t);
      if r.None? {
        return Some(BadTx);
      }
      IncludeNext(c, start, txs, l, t, Done(rt.World(), r.value));
      Include(t, r.value, l.world, rt.World());
      ReplaysOrderly(c, start, txs, Book());
      return None;
    }

    /** Records a transaction that was executed, which took the world from `was` to `world`. */
    method Include(t: Tx, receipt: Receipt, ghost was: World, ghost world: World)
      modifies this
      ensures Ledger(world, processedTxs, gasUsed, receipts)
           == Record(Ledger(was, old(processedTxs), old(gasUsed), old(receipts)), t, Done(world, receipt))
      ensures txs == old(txs) + [t] && unwrapped == (old(unwrapped) && old(gasUsed) + t.gas < U64)
    {
      unwrapped := unwrapped && gasUsed + t.gas < U64;
      processedTxs := processedTxs[t.id := receipt.reverted];
      gasUsed := Wrap64(gasUsed + receipt.gasUsed);
      receipts := receipts + [receipt];
      txs := txs + [t];
    }

    /**
     * Finishes the block, unless the key is not the packer's or rewards cannot be distributed. Whatever was adopted and
     * refused before, the validator accepts the block on the world of the parent and gets to the same world, if and
     * only if the staker contract passes the balance check, which packing omits; and the gas is within the limit
     * unless a sum wrapped.
     */
    method Pack(keyMatches: bool, shouldVote: bool) returns (r: Option<Body>)
      requires Valid()
      modifies rt.sm
      ensures rt.Valid()
      ensures r.Some? <==> keyMatches && Closed(c, old(rt.World())).Some?
      ensures r.Some? ==> (Accepts(c, start, r.value) <==> (c.closing.posActive ==> c.closing.balanced(old(rt.World()))))
      ensures r.Some? ==> Verified(c, start, r.value.txs).Some?
      ensures r.Some? ==> Some(rt.World()) == Closed(c, Verified(c, start, r.value.txs).value.world)
      ensures r.Some? ==> r.value.txs == txs && r.value.com == (shouldVote && c.finalityFork <= c.number)
      ensures r.Some? && unwrapped ==> r.value.gasUsed <= c.gasLimit
    {
      if !keyMatches {
        return None;
      }
      var ok := CloseBlock(c, rt);
      if !ok {
        return None;
      }
      var w := rt.Contents();
      var com := c.finalityFork <= c.number && shouldVote;
      return Some(Body(txs, com, gasUsed, c.closing.txsRoot(txs), c.closing.receiptsRoot(receipts), c.closing.stateRoot(w)));
    }

    /** Executes behind a checkpoint, to which a failed execution is reverted. */
    method Execute(t: Tx) returns (r: Option<Receipt>)
      requires rt.Valid() && rt.env == c.env && Faithful(c)
      modifies rt.sm
      ensures rt.Valid()
      ensures (if r.Some? then Some(Done(rt.World(), r.value)) else None) == c.run(old(rt.World()), t)
      ensures r.None? ==> rt.sm.Journals() == old(rt.sm.Journals())
      ensures r.Some? ==> r.value.gasUsed <= t.gas
    {
      ghost var js, w := rt.sm.Journals(), rt.World();
      var checkpoint := rt.NewCheckpoint();
      assert rt.sm.Journals()[..|js|] == js;
      r := ExecuteTransaction(rt, t);
      if r.None? {
        rt.sm.PopTo(checkpoint);
        assert rt.sm.Journals() == js;
      } else {
        GasUsedBounds(c.env, w, t);
      }
    }
  }
}
