/**
 * The transaction executor: the runtime works in place on a revertible map, and runs clause by clause.
 */
module TxExecutors {
  import opened Wrappers
  import opened StackedMaps
  import opened TxFees
  import opened TxRuntime

  type Levels = Journals<Cell, nat>

  /** Only the top level was changed, and levels were put on top of it. */
  ghost predicate Extends(js: Levels, ks: Levels) {
    1 <= |js| <= |ks| && ks[..|js| - 1] == js[..|js| - 1]
  }

  lemma {:induction false} ExtendsTrans(js: Levels, ks: Levels, ls: Levels)
    requires Extends(js, ks) && Extends(ks, ls)
    ensures Extends(js, ls)
  {
    assert ls[..|js| - 1] == ls[..|ks| - 1][..|js| - 1] == ks[..|ks| - 1][..|js| - 1] == ks[..|js| - 1];
  }

  method Times(x: nat, y: nat) returns (z: nat)
    ensures z == x * y
  {
    return x * y;
  }

  class Runtime {
    const env: Env
    const sm: StackedMap<Cell, nat>

    ghost predicate Valid()
      reads sm
    {
      sm.Valid() && sm.src == env.src && Sane(env) && sm.Journals() != []
    }

    ghost function World(): World
      reads sm
    {
      Flatten(sm.Journals())
    }

    constructor (env: Env, sm: StackedMap<Cell, nat>)
      requires sm.Valid() && sm.src == env.src && Sane(env) && sm.Journals() != []
      ensures Valid() && this.env == env && this.sm == sm
    {
      this.env, this.sm := env, sm;
    }

    method Get(cell: Cell) returns (v: nat)
      requires Valid()
      ensures v == Value(env.src, World(), cell)
    {
      var r := sm.Get(cell);
      return if r.Found? then r.value else 0;
    }

    method Put(cell: Cell, v: nat)
      requires Valid()
      modifies sm
      ensures Valid() && World() == Set(old(World()), cell, v)
      ensures Extends(old(sm.Journals()), sm.Journals()) && |sm.Journals()| == |old(sm.Journals())|
    {
      PutFlat(sm.Journals(), cell, v);
      sm.Put(cell, v);
    }

    method NewCheckpoint() returns (revision: nat)
      requires Valid()
      modifies sm
      ensures Valid() && World() == old(World())
      ensures sm.Journals() == old(sm.Journals()) + [[]] && revision == |old(sm.Journals())|
    {
      PushFlat(sm.Journals());
      revision := sm.Push();
    }

    /** Adds energy to an account. */
    method Add(addr: Address, amount: nat)
      requires Valid()
      modifies sm
      ensures Valid() && World() == AddEnergy(env.src, old(World()), addr, amount) && Extends(old(sm.Journals()), sm.Journals())
    {
      if amount == 0 {
        return;
      }
      var energy := Get(EnergyCell(addr));
      var total := Get(TotalAddCell);
      Put(TotalAddCell, total + amount);
      Put(EnergyCell(addr), energy + amount);
    }

    /** Takes energy from an account that has enough. */
    method Sub(addr: Address, amount: nat) returns (ok: bool)
      requires Valid()
      modifies sm
      ensures Valid() && Extends(old(sm.Journals()), sm.Journals())
      ensures ok <==> amount <= Energy(env.src, old(World()), addr)
      ensures if ok then Some(World()) == SubEnergy(env.src, old(World()), addr, amount) else sm.Journals() == old(sm.Journals())
    {
      if amount == 0 {
        return true;
      }
      var energy := Get(EnergyCell(addr));
      if energy < amount {
        return false;
      }
      var total := Get(TotalSubCell);
      Put(TotalSubCell, total + amount);
      Put(EnergyCell(addr), energy - amount);
      return true;
    }

    /** Deducts from one payer, if it can pay; else it is the turn of the rest. */
    method ChargeOne(p: Payer, ghost rest: seq<Payer>, prepaid: nat) returns (ok: bool)
      requires Valid()
      modifies sm
      ensures Valid() && Extends(old(sm.Journals()), sm.Journals())
      ensures FirstAble(env, old(World()), [p] + rest, prepaid) == if ok then Some(p) else FirstAble(env, old(World()), rest, prepaid)
      ensures if ok then Some(World()) == SubEnergy(env.src, old(World()), p.addr, prepaid) else sm.Journals() == old(sm.Journals())
    {
      FirstAbleOf(env, World(), p, rest, prepaid);
      ok := Sub(p.addr, prepaid);
    }

    /** Deducts the price of all gas from the first who can pay it. */
    method Charge(t: Tx, prepaid: nat) returns (payer: Option<Payer>)
      requires Valid() && Resolvable(t)
      modifies sm
      ensures Valid() && Extends(old(sm.Journals()), sm.Journals())
      ensures payer == FirstAble(env, old(World()), Payers(env, old(World()), t, prepaid), prepaid)
      ensures payer.Some? ==> Some(World()) == SubEnergy(env.src, old(World()), payer.value.addr, prepaid)
    {
      var last := Payer(if t.delegator.Some? then t.delegator.value.addr else t.origin.addr, None);
      assert [last] + [] == [last] && [] + [last] == [last];
      if t.delegator.None? {
        var to := CommonTo(t.clauses);
        assert to == CommonToOf(t.clauses);
        if to.Some? {
          var credit := Get(CreditCell(to.value, t.origin.addr));
          if credit >= prepaid {
            payer := ChargeByCredit(t, to.value, credit, prepaid);
            if payer.Some? {
              return;
            }
          }
        }
      }
      var ok := ChargeOne(last, [], prepaid);
      return if ok then Some(last) else None;
    }

    /** Deducts from the sponsor of the contract, else from the contract. */
    method ChargeByCredit(t: Tx, to: Address, credit: nat, prepaid: nat) returns (payer: Option<Payer>)
      requires Valid() && Resolvable(t) && Some(to) == CommonToOf(t.clauses)
      requires credit == CreditOf(env, World(), to, t.origin.addr) && credit >= prepaid
      modifies sm
      ensures Valid() && Extends(old(sm.Journals()), sm.Journals())
      ensures var rest := [Payer(t.origin.addr, None)];
              var first := FirstAble(env, old(World()), CreditPayers(env, old(World()), t, prepaid) + rest, prepaid);
              if payer.Some? then payer == first else first == FirstAble(env, old(World()), rest, prepaid)
      ensures if payer.Some? then Some(World()) == SubEnergy(env.src, old(World()), payer.value.addr, prepaid)
              else sm.Journals() == old(sm.Journals())
    {
      var p := Payer(to, Some((to, credit)));
      ghost var rest := [Payer(t.origin.addr, None)];
      var world := Contents();
      var sponsor := env.sponsor(world, to);
      if sponsor.Some? {
        var q := Payer(sponsor.value, Some((to, credit)));
        assert [q, p] + rest == [q] + ([p] + rest);
        var able := ChargeOne(q, [p] + rest, prepaid);
        if able {
          return Some(q);
        }
      }
      var ok := ChargeOne(p, rest, prepaid);
      return if ok then Some(p) else None;
    }

    /** Returns the price of the gas left to the payer, and takes what was used off the credit in use. */
    method ReturnGas(t: Tx, p: Purchase, left: nat)
      requires Valid() && left <= t.gas && t.origin.Signer? && (p.payer.credit.Some? ==> t.gas * p.price <= p.payer.credit.value.1)
      modifies sm
      ensures Valid() && World() == Returned(env, t, p, old(World()), left) && Extends(old(sm.Journals()), sm.Journals())
    {
      var returned := left * p.price;
      Add(p.payer.addr, returned);
      if p.payer.credit.Some? {
        var used := t.gas * p.price - returned;
        Priced(t.gas, left, p.price);
        Put(CreditCell(p.payer.credit.value.0, t.origin.addr), p.payer.credit.value.1 - used);
      }
    }

    /** Returns the gas left and pays the reward. */
    method Settle(t: Tx, p: Purchase, left: nat, outputs: seq<nat>, reverted: bool) returns (receipt: Receipt)
      requires Valid() && left <= t.gas && t.origin.Signer? && FeesChecked(t)
      requires Fair(env, t, p)
      modifies sm
      ensures Valid() && Extends(old(sm.Journals()), sm.Journals())
      ensures Done(World(), receipt) == Settled(env, t, p, Progress(old(World()), left, outputs, reverted))
    {
      var used := t.gas - left;
      ReturnGas(t, p, left);
      ghost var js := sm.Journals();
      var ratio := Get(RewardRatioCell);
      RewardNatural(env, t, p.basePrice, ratio, used);
      var reward := RewardOf(env, t, p.basePrice, ratio, used);
      Add(env.beneficiary, reward);
      ExtendsTrans(old(sm.Journals()), js, sm.Journals());
      var paid := Times(used, p.price);
      return Receipt(reverted, outputs, used, p.payer.addr, paid, reward);
    }

    /** Takes a snapshot and writes. */
    method Write(writes: World)
      requires Valid()
      modifies sm
      ensures Valid() && World() == old(World()) + writes
      ensures |sm.Journals()| > |old(sm.Journals())| && sm.Journals()[..|old(sm.Journals())|] == old(sm.Journals())
    {
      ghost var js := sm.Journals();
      var _ := NewCheckpoint();
      for i := 0 to |writes|
        invariant Valid() && World() == Flatten(js) + writes[..i]
        invariant |sm.Journals()| == |js| + 1 && sm.Journals()[..|js|] == js
      {
        assert writes[..i + 1] == writes[..i] + [writes[i]];
        Put(writes[i].key, writes[i].value);
      }
      assert writes[..|writes|] == writes;
    }

    /** Everything the world holds, as the virtual machine sees it. */
    method Contents() returns (w: World)
      requires Valid()
      ensures w == World()
    {
      w := sm.Journal(_ => true);
    }

    /** Buys all gas of a transaction. */
    method BuyGas(t: Tx) returns (r: Option<Purchase>)
      requires Valid() && Resolvable(t)
      modifies sm
      ensures Valid() && Extends(old(sm.Journals()), sm.Journals())
      ensures r == Bought(env, old(World()), t) && (r.Some? ==> World() == r.value.world)
      ensures r.Some? && t.fee.Legacy? ==>
                var basePrice := Value(env.src, old(World()), BaseGasPriceCell);
                255 * (r.value.price - basePrice) <= t.fee.coef * basePrice < 255 * (r.value.price - basePrice) + 255
      ensures r.Some? && t.fee.Dynamic? ==>
                && r.value.price <= t.fee.maxFee && r.value.price <= env.baseFee + t.fee.maxPriorityFee
                && (r.value.price == t.fee.maxFee || r.value.price == env.baseFee + t.fee.maxPriorityFee)
    {
      var basePrice := Get(BaseGasPriceCell);
      EffectivePriceIs(t, env.baseFee, basePrice);
      var price := EffectiveGasPrice(t, env.baseFee, basePrice);
      if price < env.baseFee {
        return None;
      }
      var payer := Charge(t, t.gas * price);
      if payer.None? {
        return None;
      }
      var world := Contents();
      return Some(Purchase(world, basePrice, price, payer.value));
    }
  }

  lemma {:induction false} RunStep(env: Env, t: Tx, p: Purchase, w: World, left: nat, outputs: seq<nat>)
    requires Sane(env) && |outputs| < |t.clauses|
    ensures var r := env.machine(w, Call(t, |outputs|, left, p.payer.addr, p.price));
            RunFrom(env, t, p, w, left, outputs) ==
              if r.Broken? then Stopped
              else if r.failed then Progress(p.world, LeftAfter(left, r.leftOver, r.refund), [], true)
              else RunFrom(env, t, p, w + r.writes, LeftAfter(left, r.leftOver, r.refund), outputs + [r.output])
  {
  }

  datatype FinalizeError = ClausesPending | AlreadyFinalized

  class TransactionExecutor {
    const rt: Runtime
    const t: Tx
    const purchase: Purchase
    const checkpoint: nat
    var leftOverGas: nat
    var outputs: seq<nat>
    var reverted: bool
    var finalized: bool
    /** The levels when gas had been bought. */
    ghost const base: Levels

    /** Where the clauses lead from here. */
    ghost function Pending(): Progress
      reads this, rt.sm
      requires Sane(rt.env) && |outputs| <= |t.clauses|
    {
      if reverted then Progress(rt.World(), leftOverGas, outputs, true)
      else RunFrom(rt.env, t, purchase, rt.World(), leftOverGas, outputs)
    }

    /** Where they lead from the start. */
    ghost function Whole(): Progress
      requires Sane(rt.env) && Resolvable(t)
    {
      RunFrom(rt.env, t, purchase, purchase.world, t.gas - t.intrinsicGas.value, [])
    }

    /** The levels up to the checkpoint are as they were. */
    ghost predicate Kept()
      reads rt.sm
    {
      |rt.sm.Journals()| >= checkpoint && rt.sm.Journals()[..checkpoint] == base
    }

    ghost predicate Prepared()
    {
      && Sane(rt.env) && Resolvable(t) && 1 <= |base| == checkpoint && Flatten(base) == purchase.world
      && Fair(rt.env, t, purchase)
    }

    ghost predicate Valid()
      reads this, rt.sm
    {
      && rt.Valid() && Prepared()
      && Kept()
      && |outputs| <= |t.clauses| && leftOverGas <= t.gas
      && Pending() == Whole()
    }

    /** Starts running a transaction for which gas has been bought. */
    constructor (rt: Runtime, t: Tx, purchase: Purchase)
      requires rt.Valid() && Resolvable(t) && rt.World() == purchase.world && Fair(rt.env, t, purchase)
      modifies rt.sm
      ensures Valid() && !finalized && !reverted && outputs == []
      ensures this.rt == rt && this.t == t && this.purchase == purchase && base == old(rt.sm.Journals())
    {
      this.rt, this.t, this.purchase := rt, t, purchase;
      leftOverGas := t.gas - t.intrinsicGas.value;
      outputs, reverted, finalized := [], false, false;
      ghost var js := rt.sm.Journals();
      base := js;
      var c := rt.NewCheckpoint();
      checkpoint := c;
      new;
      assert rt.sm.Journals()[..|js|] == js;
    }

    predicate HasNextClause()
      reads this
    {
      !reverted && |outputs| < |t.clauses|
    }

    /** Runs the next clause; a failure takes the world back to the checkpoint. Tells whether the machine broke down. */
    method ExecNext() returns (broken: bool)
      requires Valid() && HasNextClause()
      modifies this, rt.sm
      ensures broken ==> rt.Valid() && Extends(base, rt.sm.Journals()) && Whole().Stopped?
      ensures !broken ==> Valid() && (reverted || |outputs| == |old(outputs)| + 1)
      ensures finalized == old(finalized)
    {
      var w := rt.Contents();
      var r := rt.env.machine(w, Call(t, |outputs|, leftOverGas, purchase.payer.addr, purchase.price));
      if r.Broken? {
        BaseExtends();
        return true;
      }
      ghost var js := rt.sm.Journals();
      RunStep(rt.env, t, purchase, w, leftOverGas, outputs);
      rt.Write(r.writes);
      assert rt.sm.Journals()[..checkpoint] == rt.sm.Journals()[..|js|][..checkpoint];
      leftOverGas := LeftAfter(leftOverGas, r.leftOver, r.refund);
      if r.failed {
        Undo();
      } else {
        outputs := outputs + [r.output];
      }
      return false;
    }

    /** Takes the world back to the checkpoint. */
    method Undo()
      requires rt.Valid() && Prepared() && Kept()
      modifies this`reverted, this`outputs, rt.sm
      ensures rt.Valid() && Kept() && rt.World() == purchase.world && reverted && outputs == []
    {
      ghost var js := rt.sm.Journals();
      rt.sm.PopTo(checkpoint);
      reverted, outputs := true, [];
      assert js[..|js|] == js && rt.sm.Journals() == base && base[..checkpoint] == base;
    }

    /** Returns the gas left, updates the credit and pays the reward; only once, and after all clauses. */
    method Finalize() returns (r: Result<Receipt, FinalizeError>)
      requires Valid()
      modifies this, rt.sm
      ensures rt.Valid() && Extends(old(rt.sm.Journals()), rt.sm.Journals())
      ensures r.Err? <==> old(HasNextClause() || finalized)
      ensures old(HasNextClause()) ==> r == Err(ClausesPending)
      ensures r.Err? ==> unchanged(this, rt.sm)
      ensures r.Ok? ==> finalized && Whole().Progress? && Whole().left <= t.gas
      ensures r.Ok? ==> Done(rt.World(), r.value) == Settled(rt.env, t, purchase, Whole())
    {
      if HasNextClause() {
        return Err(ClausesPending);
      }
      if finalized {
        return Err(AlreadyFinalized);
      }
      finalized := true;
      assert Whole() == Progress(rt.World(), leftOverGas, outputs, reverted);
      var receipt := rt.Settle(t, purchase, leftOverGas, outputs, reverted);
      return Ok(receipt);
    }

    /** Runs all clauses and finalizes, unless the machine breaks down. */
    method Run() returns (r: Option<Receipt>)
      requires Valid() && !finalized
      modifies this, rt.sm
      ensures rt.Valid() && Extends(base, rt.sm.Journals())
      ensures (if r.Some? then Some(Done(rt.World(), r.value)) else None) == Finished(rt.env, t, purchase)
    {
      var broken := RunClauses();
      if broken {
        return None;
      }
      ghost var js := rt.sm.Journals();
      BaseExtends();
      var receipt := Finalize();
      ExtendsTrans(base, js, rt.sm.Journals());
      return Some(receipt.value);
    }

    method RunClauses() returns (broken: bool)
      requires Valid() && !finalized
      modifies this, rt.sm
      ensures broken ==> rt.Valid() && Extends(base, rt.sm.Journals()) && Whole().Stopped?
      ensures !broken ==> Valid() && !finalized && !HasNextClause()
    {
      while HasNextClause()
        invariant Valid() && !finalized
        decreases HasNextClause(), |t.clauses| - |outputs|
      {
        broken := ExecNext();
        if broken {
          return;
        }
      }
      broken := false;
    }

    lemma {:induction false} BaseExtends()
      requires Kept() && 1 <= |base| == checkpoint
      ensures Extends(base, rt.sm.Journals())
    {
      assert rt.sm.Journals()[..|base| - 1] == rt.sm.Journals()[..checkpoint][..|base| - 1];
    }
  }

  /** Checks a transaction and buys its gas; what is below the top level is untouched. */
  method PrepareTransaction(rt: Runtime, t: Tx) returns (e: Option<TransactionExecutor>)
    requires rt.Valid()
    modifies rt.sm
    ensures rt.Valid() && Extends(old(rt.sm.Journals()), rt.sm.Journals())
    ensures e.Some? <==> Resolvable(t) && Bought(rt.env, old(rt.World()), t).Some?
    ensures e.Some? ==> e.value.rt == rt && e.value.t == t && Bought(rt.env, old(rt.World()), t) == Some(e.value.purchase)
    ensures e.Some? ==> fresh(e.value) && e.value.Valid() && !e.value.finalized && Extends(old(rt.sm.Journals()), e.value.base)
  {
    ghost var w, js := rt.World(), rt.sm.Journals();
    var ok := ResolveTransaction(t);
    if !ok {
      return None;
    }
    var purchase := rt.BuyGas(t);
    if purchase.None? {
      return None;
    }
    BoughtFair(rt.env, w, t);
    var executor := new TransactionExecutor(rt, t, purchase.value);
    executor.BaseExtends();
    ExtendsTrans(js, executor.base, rt.sm.Journals());
    return Some(executor);
  }

  /** Executes a transaction; what is below the top level is untouched. */
  method ExecuteTransaction(rt: Runtime, t: Tx) returns (r: Option<Receipt>)
    requires rt.Valid()
    modifies rt.sm
    ensures rt.Valid() && Extends(old(rt.sm.Journals()), rt.sm.Journals())
    ensures (if r.Some? then Some(Done(rt.World(), r.value)) else None) == Executed(rt.env, old(rt.World()), t)
  {
    ghost var w, js := rt.World(), rt.sm.Journals();
    var executor := PrepareTransaction(rt, t);
    if executor.None? {
      return None;
    }
    r := executor.value.Run();
    ExtendsTrans(js, executor.value.base, rt.sm.Journals());
  }
}
