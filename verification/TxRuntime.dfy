/**
 * Execution of a transaction: buying gas, running the clauses, reverting all of them if one fails,
 * and returning what is left.
 */
module TxRuntime {
  import opened Wrappers
  import opened TxFees

  // ---------- The environment ----------

  /** The call of a clause in the virtual machine. */
  datatype Call = Call(t: Tx, index: nat, gas: nat, payer: Address, price: nat)

  /** Either the machine itself breaks down, or the clause runs and may fail. */
  datatype Outcome = Broken | Ran(writes: World, leftOver: nat, refund: nat, failed: bool, output: nat)

  /** The sponsor of a contract, if the current sponsor is one. */
  datatype Env = Env(
    src: Base, machine: (World, Call) -> Outcome, sponsor: (World, Address) -> Option<Address>,
    baseFee: nat, galactica: bool, beneficiary: Address)

  /** The virtual machine never returns more gas than it was given. */
  ghost predicate Sane(env: Env) {
    forall w, c {:trigger env.machine(w, c)} :: env.machine(w, c).Ran? ==> env.machine(w, c).leftOver <= c.gas
  }

  // ---------- Checks ----------

  /** The values are not negative and their sum, also of each part, fits 256 bits. */
  predicate ValuesFit(clauses: seq<Clause>) {
    && (forall i :: 0 <= i < |clauses| ==> clauses[i].value >= 0)
    && SumOfValues(clauses) < U256
  }

  function SumOfValues(clauses: seq<Clause>): int {
    if clauses == [] then 0 else SumOfValues(clauses[..|clauses| - 1]) + clauses[|clauses| - 1].value
  }

  predicate Resolvable(t: Tx) {
    && t.origin.Signer? && t.intrinsicGas.Some? && t.intrinsicGas.value <= t.gas
    && (t.delegator.Some? ==> t.delegator.value.Signer?)
    && ValuesFit(t.clauses) && FeesChecked(t)
  }

  lemma {:induction false} SumOfPrefix(clauses: seq<Clause>, n: nat)
    requires n <= |clauses| && forall i :: 0 <= i < |clauses| ==> clauses[i].value >= 0
    ensures 0 <= SumOfValues(clauses[..n]) <= SumOfValues(clauses)
    decreases |clauses|
  {
    if n == |clauses| {
      assert clauses[..n] == clauses;
      if n > 0 {
        SumOfPrefix(clauses[..n - 1], n - 1);
        assert clauses[..n - 1][..n - 1] == clauses[..n - 1];
      }
    } else {
      SumOfPrefix(clauses[..|clauses| - 1], n);
      assert clauses[..|clauses| - 1][..n] == clauses[..n];
    }
  }

  /** Basic validation; the loop stops at the first value that is negative or makes the sum too large. */
  method ResolveTransaction(t: Tx) returns (ok: bool)
    ensures ok <==> Resolvable(t)
  {
    if t.origin.Unrecoverable? || t.intrinsicGas.None? || t.gas < t.intrinsicGas.value || t.delegator == Some(Unrecoverable) {
      return false;
    }
    var sum := 0;
    for i := 0 to |t.clauses|
      invariant forall k :: 0 <= k < i ==> t.clauses[k].value >= 0
      invariant sum == SumOfValues(t.clauses[..i]) && 0 <= sum < U256
    {
      if t.clauses[i].value < 0 {
        return false;
      }
      assert t.clauses[..i + 1][..i] == t.clauses[..i];
      sum := sum + t.clauses[i].value;
      if sum >= U256 {
        if ValuesFit(t.clauses) {
          SumOfPrefix(t.clauses, i + 1);
          assert false;
        }
        return false;
      }
    }
    assert t.clauses[..|t.clauses|] == t.clauses;
    if t.fee.Dynamic? {
      if t.fee.maxFee < 0 || t.fee.maxPriorityFee < 0 || t.fee.maxFee >= U256 || t.fee.maxPriorityFee >= U256 {
        return false;
      }
      if t.fee.maxFee < t.fee.maxPriorityFee {
        return false;
      }
    }
    return true;
  }

  /** The contract that all clauses call, if there is one. */
  predicate AllTo(clauses: seq<Clause>, to: Address) {
    clauses != [] && forall i :: 0 <= i < |clauses| ==> clauses[i].to == Some(to)
  }

  method CommonTo(clauses: seq<Clause>) returns (to: Option<Address>)
    ensures to.Some? ==> AllTo(clauses, to.value)
    ensures to.None? ==> forall a :: !AllTo(clauses, a)
  {
    if |clauses| == 0 {
      return None;
    }
    var first := clauses[0].to;
    if first.None? {
      return None;
    }
    for i := 1 to |clauses|
      invariant forall k :: 0 <= k < i ==> clauses[k].to == first
    {
      if clauses[i].to.None? || clauses[i].to != first {
        return None;
      }
    }
    return first;
  }

  function CommonToOf(clauses: seq<Clause>): Option<Address> {
    if clauses != [] && clauses[0].to.Some? && AllTo(clauses, clauses[0].to.value) then clauses[0].to else None
  }

  // ---------- Buying gas ----------

  /** Who pays; `credit` is the contract and the user credit in use. */
  datatype Payer = Payer(addr: Address, credit: Option<(Address, nat)>)

  /** The world after gas was bought, and at what price. */
  datatype Purchase = Purchase(world: World, basePrice: nat, price: nat, payer: Payer)

  function PriceOf(env: Env, w: World, t: Tx): int {
    EffectiveGasPrice(t, env.baseFee, Value(env.src, w, BaseGasPriceCell))
  }

  function CreditOf(env: Env, w: World, to: Address, user: Address): nat {
    Value(env.src, w, CreditCell(to, user))
  }

  /** Sponsor and contract can pay if the user has the credit for it. */
  function CreditPayers(env: Env, w: World, t: Tx, prepaid: nat): seq<Payer>
    requires Resolvable(t)
  {
    var to := CommonToOf(t.clauses);
    if to.Some? && CreditOf(env, w, to.value, t.origin.addr) >= prepaid then
      var credit := Some((to.value, CreditOf(env, w, to.value, t.origin.addr)));
      var sponsor := env.sponsor(w, to.value);
      if sponsor.Some? then [Payer(sponsor.value, credit), Payer(to.value, credit)] else [Payer(to.value, credit)]
    else []
  }

  /** Who can pay, in this order: the delegator alone; else sponsor, contract and origin. */
  function Payers(env: Env, w: World, t: Tx, prepaid: nat): seq<Payer>
    requires Resolvable(t)
  {
    if t.delegator.Some? then [Payer(t.delegator.value.addr, None)]
    else CreditPayers(env, w, t, prepaid) + [Payer(t.origin.addr, None)]
  }

  /** The first of them who has enough energy. */
  function FirstAble(env: Env, w: World, payers: seq<Payer>, prepaid: nat): Option<Payer> {
    if payers == [] then None
    else if prepaid <= Energy(env.src, w, payers[0].addr) then Some(payers[0])
    else FirstAble(env, w, payers[1..], prepaid)
  }

  lemma {:induction false} FirstAbleOf(env: Env, w: World, payer: Payer, rest: seq<Payer>, prepaid: nat)
    ensures FirstAble(env, w, [payer] + rest, prepaid)
         == if prepaid <= Energy(env.src, w, payer.addr) then Some(payer) else FirstAble(env, w, rest, prepaid)
  {
    assert ([payer] + rest)[1..] == rest;
  }

  lemma {:induction false} FirstAbleIn(env: Env, w: World, payers: seq<Payer>, prepaid: nat)
    ensures FirstAble(env, w, payers, prepaid).Some? ==>
              FirstAble(env, w, payers, prepaid).value in payers && prepaid <= Energy(env.src, w, FirstAble(env, w, payers, prepaid).value.addr)
  {
    if payers != [] {
      FirstAbleIn(env, w, payers[1..], prepaid);
    }
  }

  lemma {:induction false} FirstAbleIsFirst(env: Env, w: World, payers: seq<Payer>, prepaid: nat) returns (k: nat)
    requires FirstAble(env, w, payers, prepaid).Some?
    ensures k < |payers| && FirstAble(env, w, payers, prepaid) == Some(payers[k])
    ensures forall j :: 0 <= j < k ==> Energy(env.src, w, payers[j].addr) < prepaid
  {
    if prepaid <= Energy(env.src, w, payers[0].addr) {
      k := 0;
    } else {
      var i := FirstAbleIsFirst(env, w, payers[1..], prepaid);
      k := i + 1;
      forall j | 0 <= j < k ensures Energy(env.src, w, payers[j].addr) < prepaid {
        assert j > 0 ==> payers[1..][j - 1] == payers[j];
      }
    }
  }

  /**
   * A delegator pays alone. Without one, the origin pays only if the user has no sufficient credit with a
   * common contract, or neither its sponsor nor the contract can pay; otherwise one of those two pays.
   */
  lemma {:induction false} OriginPaysLast(env: Env, w: World, t: Tx)
    requires Resolvable(t) && PayerOf(env, w, t).Some?
    ensures var p := PayerOf(env, w, t).value;
            var others := CreditPayers(env, w, t, t.gas * PriceOf(env, w, t));
            if t.delegator.Some? then p == Payer(t.delegator.value.addr, None)
            else if p.credit.Some? then p in others
            else p == Payer(t.origin.addr, None) && forall q :: q in others ==> Energy(env.src, w, q.addr) < t.gas * PriceOf(env, w, t)
  {
    var prepaid := t.gas * PriceOf(env, w, t);
    var k := FirstAbleIsFirst(env, w, Payers(env, w, t, prepaid), prepaid);
  }

  /** Who pays for the gas, if the price covers the base fee and somebody can pay. */
  function PayerOf(env: Env, w: World, t: Tx): Option<Payer>
    requires Resolvable(t)
  {
    if PriceOf(env, w, t) < env.baseFee then None
    else FirstAble(env, w, Payers(env, w, t, t.gas * PriceOf(env, w, t)), t.gas * PriceOf(env, w, t))
  }

  function Bought(env: Env, w: World, t: Tx): (r: Option<Purchase>)
    requires Resolvable(t)
    ensures r.Some? <==> PayerOf(env, w, t).Some?
  {
    var payer := PayerOf(env, w, t);
    if payer.None? then None
    else
      FirstAbleIn(env, w, Payers(env, w, t, t.gas * PriceOf(env, w, t)), t.gas * PriceOf(env, w, t));
      SubtractedEnergy(env.src, w, payer.value.addr, t.gas * PriceOf(env, w, t), EnergyCell(payer.value.addr));
      var world := SubEnergy(env.src, w, payer.value.addr, t.gas * PriceOf(env, w, t)).value;
      Some(Purchase(world, Value(env.src, w, BaseGasPriceCell), PriceOf(env, w, t), payer.value))
  }

  /** Buying gas takes the price of all gas from one account, which can afford it, and touches nothing else but the total taken. */
  lemma {:induction false} BoughtCharges(env: Env, w: World, t: Tx, cell: Cell)
    requires Resolvable(t) && Bought(env, w, t).Some?
    ensures var p := Bought(env, w, t).value;
            && w <= p.world
            && p.price >= env.baseFee
            && t.gas * p.price <= Energy(env.src, w, p.payer.addr)
            && Value(env.src, p.world, cell)
               == Value(env.src, w, cell)
                  + (if cell == EnergyCell(p.payer.addr) then 0 - t.gas * p.price else if cell == TotalSubCell then t.gas * p.price else 0)
            && (p.payer.credit.Some? ==>
                  && t.gas * p.price <= p.payer.credit.value.1
                  && p.payer.credit.value.1 == CreditOf(env, w, p.payer.credit.value.0, t.origin.addr))
  {
    var p := Bought(env, w, t).value;
    FirstAbleIn(env, w, Payers(env, w, t, t.gas * p.price), t.gas * p.price);
    SubtractedEnergy(env.src, w, p.payer.addr, t.gas * p.price, cell);
  }

  // ---------- Running the clauses ----------

  /** Where the clauses have led: to the gas and outputs so far, or to a machine that broke down. */
  datatype Progress = Stopped | Progress(world: World, left: nat, outputs: seq<nat>, reverted: bool)

  /** Gas left after a clause: what the machine left over and the refund, which is at most half of the gas used. */
  function LeftAfter(gas: nat, leftOver: nat, refund: nat): (left: nat)
    requires leftOver <= gas
    ensures leftOver <= left <= gas && left - leftOver <= refund && 2 * (left - leftOver) <= gas - leftOver
    ensures left - leftOver < refund ==> 2 * (left - leftOver) + 1 >= gas - leftOver
  {
    leftOver + Min((gas - leftOver) / 2, refund)
  }

  /** Runs the clauses from `i` on; a clause that fails takes the world back to where gas had been bought. */
  function RunFrom(env: Env, t: Tx, p: Purchase, w: World, left: nat, outputs: seq<nat>): (r: Progress)
    requires Sane(env) && |outputs| <= |t.clauses|
    ensures r.Progress? ==> r.left <= left
    ensures r.Progress? && r.reverted ==> r.world == p.world && r.outputs == []
    ensures r.Progress? && !r.reverted ==> |r.outputs| == |t.clauses| && outputs <= r.outputs
    decreases |t.clauses| - |outputs|
  {
    if |outputs| == |t.clauses| then Progress(w, left, outputs, false)
    else
      var r := env.machine(w, Call(t, |outputs|, left, p.payer.addr, p.price));
      if r.Broken? then Stopped
      else if r.failed then Progress(p.world, LeftAfter(left, r.leftOver, r.refund), [], true)
      else RunFrom(env, t, p, w + r.writes, LeftAfter(left, r.leftOver, r.refund), outputs + [r.output])
  }

  // ---------- Settling ----------

  datatype Receipt = Receipt(reverted: bool, outputs: seq<nat>, gasUsed: nat, payer: Address, paid: nat, reward: nat)

  function RewardOf(env: Env, t: Tx, basePrice: nat, ratio: nat, gasUsed: nat): int {
    if env.galactica then PriorityFee(t, env.baseFee, basePrice) * gasUsed
    else gasUsed * OverallGasPrice(t, basePrice) * ratio / E18
  }

  lemma {:induction false} RewardNatural(env: Env, t: Tx, basePrice: nat, ratio: nat, gasUsed: nat)
    requires FeesChecked(t) && EffectiveGasPrice(t, env.baseFee, basePrice) >= env.baseFee
    ensures RewardOf(env, t, basePrice, ratio, gasUsed) >= 0
  {
    PriceSplits(t, env.baseFee, basePrice);
    OverallAtLeastEffective(t, env.baseFee, basePrice);
    assert OverallGasPrice(t, basePrice) >= 0;
    assert gasUsed * OverallGasPrice(t, basePrice) >= 0;
    assert gasUsed * OverallGasPrice(t, basePrice) * ratio >= 0;
  }

  /** Before fees are dynamic, the reward is a share of the overall price of the gas used. */
  lemma {:induction false} RewardIsShare(env: Env, t: Tx, basePrice: nat, ratio: nat, gasUsed: nat)
    requires !env.galactica && FeesChecked(t)
    ensures var price := gasUsed * OverallGasPrice(t, basePrice);
            && price >= 0
            && 1_000_000_000_000_000_000 * RewardOf(env, t, basePrice, ratio, gasUsed) <= price * ratio
            && price * ratio < 1_000_000_000_000_000_000 * RewardOf(env, t, basePrice, ratio, gasUsed) + 1_000_000_000_000_000_000
            && (ratio <= 1_000_000_000_000_000_000 ==> RewardOf(env, t, basePrice, ratio, gasUsed) <= price)
  {
    OverallAtLeastEffective(t, env.baseFee, basePrice);
    ShareOf18(gasUsed, OverallGasPrice(t, basePrice), ratio);
  }

  lemma {:induction false} ShareOf18(gasUsed: nat, price: nat, ratio: nat)
    ensures gasUsed * price >= 0
    ensures var reward := gasUsed * price * ratio / E18;
            reward * E18 <= gasUsed * price * ratio < reward * E18 + E18 && (ratio <= E18 ==> reward <= gasUsed * price)
  {
    var x := gasUsed * price;
    assert x * ratio >= 0;
    if ratio <= E18 {
      assert x * ratio <= x * E18;
    }
  }

  lemma {:induction false} Priced(gas: nat, left: nat, price: nat)
    requires left <= gas
    ensures 0 <= left * price <= gas * price && gas * price - left * price == (gas - left) * price
  {
    assert gas * price == left * price + (gas - left) * price;
  }

  /** The world once the gas left is returned, and the credit is updated. */
  function Returned(env: Env, t: Tx, p: Purchase, w: World, left: nat): World
    requires left <= t.gas && t.origin.Signer? && (p.payer.credit.Some? ==> t.gas * p.price <= p.payer.credit.value.1)
  {
    var w' := AddEnergy(env.src, w, p.payer.addr, left * p.price);
    if p.payer.credit.Some? then
      Priced(t.gas, left, p.price);
      Set(w', CreditCell(p.payer.credit.value.0, t.origin.addr), p.payer.credit.value.1 - (t.gas * p.price - left * p.price))
    else w'
  }

  /** Return of the gas left, update of the credit and the reward change no other cell. */
  lemma {:induction false} ReturnedGas(env: Env, t: Tx, p: Purchase, w: World, left: nat, cell: Cell)
    requires left <= t.gas && t.origin.Signer? && (p.payer.credit.Some? ==> t.gas * p.price <= p.payer.credit.value.1)
    ensures w <= Returned(env, t, p, w, left)
    ensures Value(env.src, Returned(env, t, p, w, left), cell) ==
              if p.payer.credit.Some? && cell == CreditCell(p.payer.credit.value.0, t.origin.addr)
              then p.payer.credit.value.1 - (t.gas - left) * p.price
              else Value(env.src, w, cell) + if cell == EnergyCell(p.payer.addr) || cell == TotalAddCell then left * p.price else 0
  {
    AddedEnergy(env.src, w, p.payer.addr, left * p.price, cell);
    var w' := AddEnergy(env.src, w, p.payer.addr, left * p.price);
    if p.payer.credit.Some? {
      Priced(t.gas, left, p.price);
      var rest := p.payer.credit.value.1 - (t.gas * p.price - left * p.price);
      ValueAfterSet(env.src, w', CreditCell(p.payer.credit.value.0, t.origin.addr), rest, cell);
    }
  }

  // ---------- The whole transaction ----------

  datatype Done = Done(world: World, receipt: Receipt)

  function Settled(env: Env, t: Tx, p: Purchase, r: Progress): Done
    requires r.Progress? && r.left <= t.gas && t.origin.Signer? && FeesChecked(t)
    requires p.payer.credit.Some? ==> t.gas * p.price <= p.payer.credit.value.1
    requires p.price == EffectiveGasPrice(t, env.baseFee, p.basePrice) && p.price >= env.baseFee
  {
    var used := t.gas - r.left;
    var w := Returned(env, t, p, r.world, r.left);
    Priced(used, used, p.price);
    RewardNatural(env, t, p.basePrice, Value(env.src, w, RewardRatioCell), used);
    var reward: nat := RewardOf(env, t, p.basePrice, Value(env.src, w, RewardRatioCell), used);
    Done(AddEnergy(env.src, w, env.beneficiary, reward), Receipt(r.reverted, r.outputs, used, p.payer.addr, used * p.price, reward))
  }

  /** A purchase by somebody who can pay, at the effective price. */
  ghost predicate Fair(env: Env, t: Tx, p: Purchase) {
    && (p.payer.credit.Some? ==> t.gas * p.price <= p.payer.credit.value.1)
    && p.price == EffectiveGasPrice(t, env.baseFee, p.basePrice) && p.price >= env.baseFee
  }

  /** Everything after the purchase; nothing if the machine breaks down. */
  function Finished(env: Env, t: Tx, p: Purchase): Option<Done>
    requires Sane(env) && Resolvable(t) && Fair(env, t, p)
  {
    var r := RunFrom(env, t, p, p.world, t.gas - t.intrinsicGas.value, []);
    if r.Stopped? then None else Some(Settled(env, t, p, r))
  }

  lemma {:induction false} BoughtFair(env: Env, w: World, t: Tx)
    requires Resolvable(t) && Bought(env, w, t).Some?
    ensures Fair(env, t, Bought(env, w, t).value)
  {
    BoughtCharges(env, w, t, TotalAddCell);
  }

  /** Execution of a transaction: nothing if it is refused or the machine breaks down. */
  function Executed(env: Env, w: World, t: Tx): Option<Done>
    requires Sane(env)
  {
    if !Resolvable(t) || Bought(env, w, t).None? then None
    else
      BoughtFair(env, w, t);
      Finished(env, t, Bought(env, w, t).value)
  }

  function ProgressOf(env: Env, w: World, t: Tx): Progress
    requires Sane(env) && Resolvable(t) && Bought(env, w, t).Some?
  {
    var p := Bought(env, w, t).value;
    RunFrom(env, t, p, p.world, t.gas - t.intrinsicGas.value, [])
  }

  /** Gas used lies between the intrinsic and the provided gas, and is paid for at the effective price. */
  lemma {:induction false} GasUsedBounds(env: Env, w: World, t: Tx)
    requires Sane(env) && Executed(env, w, t).Some?
    ensures var r := Executed(env, w, t).value.receipt;
            && t.intrinsicGas.Some? && t.intrinsicGas.value <= r.gasUsed <= t.gas
            && r.paid == r.gasUsed * PriceOf(env, w, t) && PriceOf(env, w, t) >= env.baseFee
            && (if r.reverted then r.outputs == [] else |r.outputs| == |t.clauses|)
  {
    BoughtCharges(env, w, t, TotalAddCell);
  }

  /** The price that gas was paid at, by the base price before the transaction. */
  lemma {:induction false} PaidPrice(env: Env, w: World, t: Tx) returns (price: nat)
    requires Sane(env) && Executed(env, w, t).Some?
    ensures var r, basePrice := Executed(env, w, t).value.receipt, Value(env.src, w, BaseGasPriceCell);
            && env.baseFee <= price && r.paid == r.gasUsed * price
            && (t.fee.Legacy? ==> 255 * (price - basePrice) <= t.fee.coef * basePrice < 255 * (price - basePrice) + 255)
            && (t.fee.Dynamic? ==>
                  && price <= t.fee.maxFee && price <= env.baseFee + t.fee.maxPriorityFee
                  && (price == t.fee.maxFee || price == env.baseFee + t.fee.maxPriorityFee))
  {
    GasUsedBounds(env, w, t);
    EffectivePriceIs(t, env.baseFee, Value(env.src, w, BaseGasPriceCell));
    price := PriceOf(env, w, t);
  }

  /**
   * The reward: once fees are dynamic, what the gas used costs above the base fee; before, the share of the reward ratio that
   * the clauses have led to, in 10^18, rounded down. Proved work counts, which does not count for what is paid.
   */
  lemma {:induction false} RewardPrice(env: Env, w: World, t: Tx) returns (price: nat)
    requires Sane(env) && Executed(env, w, t).Some?
    ensures Resolvable(t) && Bought(env, w, t).Some? && ProgressOf(env, w, t).Progress?
    ensures var r, ratio := Executed(env, w, t).value.receipt, Value(env.src, ProgressOf(env, w, t).world, RewardRatioCell);
            && (env.galactica && t.fee.Legacy? ==> r.reward == r.gasUsed * (price - env.baseFee))
            && (!env.galactica ==>
                  && 1_000_000_000_000_000_000 * r.reward <= r.gasUsed * price * ratio
                  && r.gasUsed * price * ratio < 1_000_000_000_000_000_000 * r.reward + 1_000_000_000_000_000_000)
    ensures var basePrice, paid := Value(env.src, w, BaseGasPriceCell), PriceOf(env, w, t);
            && (t.fee.Dynamic? ==> price == t.fee.maxFee)
            && (t.fee.Legacy? && t.work < t.gas ==>
                  t.gas * (price - paid) <= t.work * basePrice < t.gas * (price - paid) + t.gas)
            && (t.fee.Legacy? && t.work >= t.gas ==> price == paid + if t.gas > 0 then basePrice else 0)
  {
    var basePrice := Value(env.src, w, BaseGasPriceCell);
    var r, ratio := Executed(env, w, t).value.receipt, Value(env.src, ProgressOf(env, w, t).world, RewardRatioCell);
    RewardFrom(env, w, t);
    OverallAtLeastEffective(t, env.baseFee, basePrice);
    OverallPriceIs(t, env.baseFee, basePrice);
    price := OverallGasPrice(t, basePrice);
    if !env.galactica {
      RewardIsShare(env, t, basePrice, ratio, r.gasUsed);
    } else {
      PriorityFeeIs(t, env.baseFee, basePrice);
      Commute(r.gasUsed, price - env.baseFee);
    }
  }

  lemma {:induction false} Commute(x: int, y: int)
    ensures x * y == y * x
  {
  }

  /** The reward is by the base price before the transaction, and by the ratio that the clauses have led to. */
  lemma {:induction false} RewardFrom(env: Env, w: World, t: Tx)
    requires Sane(env) && Executed(env, w, t).Some?
    ensures Resolvable(t) && Bought(env, w, t).Some? && ProgressOf(env, w, t).Progress?
    ensures var r, ratio := Executed(env, w, t).value.receipt, Value(env.src, ProgressOf(env, w, t).world, RewardRatioCell);
            r.reward == RewardOf(env, t, Value(env.src, w, BaseGasPriceCell), ratio, r.gasUsed)
  {
    var p, progress := Bought(env, w, t).value, ProgressOf(env, w, t);
    BoughtCharges(env, w, t, TotalAddCell);
    ReturnedGas(env, t, p, progress.world, progress.left, RewardRatioCell);
  }

  /** Without clauses and at no price, the origin pays nothing. */
  lemma {:induction false} FreeBought(env: Env, w: World, t: Tx)
    requires Resolvable(t) && t.clauses == [] && t.delegator.None? && PriceOf(env, w, t) == 0 == env.baseFee
    ensures Bought(env, w, t) == Some(Purchase(w, Value(env.src, w, BaseGasPriceCell), 0, Payer(t.origin.addr, None)))
  {
    assert t.gas * PriceOf(env, w, t) == 0;
    assert Payers(env, w, t, 0) == [Payer(t.origin.addr, None)];
    assert PayerOf(env, w, t) == Some(Payer(t.origin.addr, None));
  }

  /** Such a transaction changes nothing and uses exactly its intrinsic gas, if legacy prices are zero. */
  lemma {:induction false} FreeExecuted(env: Env, w: World, t: Tx)
    requires Sane(env) && Resolvable(t) && t.clauses == [] && t.delegator.None? && PriceOf(env, w, t) == 0 == env.baseFee
    requires !env.galactica && OverallGasPrice(t, Value(env.src, w, BaseGasPriceCell)) == 0
    ensures Executed(env, w, t).Some?
    ensures var d := Executed(env, w, t).value;
            d.world == w && d.receipt.gasUsed == t.intrinsicGas.value && !d.receipt.reverted
  {
    FreeBought(env, w, t);
    var p := Bought(env, w, t).value;
    var left := t.gas - t.intrinsicGas.value;
    assert ProgressOf(env, w, t) == Progress(w, left, [], false);
    assert left * p.price == 0;
    assert Returned(env, t, p, w, left) == w;
    FreeReward(env, t, p.basePrice, Value(env.src, w, RewardRatioCell), t.intrinsicGas.value);
  }

  /** Prices are zero if the base price is, and a transaction has the lowest coefficient and no proved work. */
  lemma {:induction false} FreePrices(env: Env, w: World, t: Tx)
    requires t.fee.Legacy? && t.fee.coef == 0 && t.work == 0 && Value(env.src, w, BaseGasPriceCell) == 0
    ensures PriceOf(env, w, t) == 0 && OverallGasPrice(t, Value(env.src, w, BaseGasPriceCell)) == 0
  {
    var basePrice := Value(env.src, w, BaseGasPriceCell);
    OneLegacyPrice(t, env.baseFee, basePrice);
    LowestLegacyPrice(t.fee.coef, basePrice);
  }

  lemma {:induction false} FreeReward(env: Env, t: Tx, basePrice: nat, ratio: nat, gasUsed: nat)
    requires !env.galactica && OverallGasPrice(t, basePrice) == 0
    ensures RewardOf(env, t, basePrice, ratio, gasUsed) == 0
  {
    assert gasUsed * OverallGasPrice(t, basePrice) == 0;
    assert 0 * ratio == 0;
  }

  lemma {:induction false} Distribute(x: nat, y: nat, z: nat)
    ensures x * (y + z) == x * y + z * x == (y + z) * x == y * x + z * x
  {
  }

  /** With dynamic fees, what is paid is the reward plus the base fee, which is burned. */
  lemma {:induction false} BaseFeeIsBurned(env: Env, w: World, t: Tx)
    requires Sane(env) && Executed(env, w, t).Some? && env.galactica && t.fee.Dynamic?
    ensures var r := Executed(env, w, t).value.receipt;
            r.paid == r.reward + r.gasUsed * env.baseFee
  {
    BoughtCharges(env, w, t, TotalAddCell);
    var p := Bought(env, w, t).value;
    var used := Executed(env, w, t).value.receipt.gasUsed;
    PriceSplits(t, env.baseFee, p.basePrice);
    var fee := PriorityFee(t, env.baseFee, p.basePrice);
    Distribute(used, env.baseFee, fee);
  }

  /**
   * What settling does to the world that the clauses have led to: the payer gets
   * back the price of the gas left, the beneficiary gets the reward, and a credit in use is set to what it
   * was less what was paid.
   */
  lemma {:induction false} SettledWorld(env: Env, t: Tx, p: Purchase, r: Progress, cell: Cell)
    requires r.Progress? && r.left <= t.gas && t.origin.Signer? && FeesChecked(t)
    requires p.payer.credit.Some? ==> t.gas * p.price <= p.payer.credit.value.1
    requires p.price == EffectiveGasPrice(t, env.baseFee, p.basePrice) && p.price >= env.baseFee
    ensures var d := Settled(env, t, p, r);
            && r.world <= d.world
            && Value(env.src, d.world, cell) ==
                 if p.payer.credit.Some? && cell == CreditCell(p.payer.credit.value.0, t.origin.addr)
                 then p.payer.credit.value.1 - d.receipt.paid
                 else Value(env.src, r.world, cell)
                      + (if cell == EnergyCell(p.payer.addr) || cell == TotalAddCell then r.left * p.price else 0)
                      + (if cell == EnergyCell(env.beneficiary) || cell == TotalAddCell then d.receipt.reward else 0)
  {
    var d, w := Settled(env, t, p, r), Returned(env, t, p, r.world, r.left);
    SettledParts(env, t, p, r);
    ReturnedGas(env, t, p, r.world, r.left, cell);
    AddedEnergy(env.src, w, env.beneficiary, d.receipt.reward, cell);
  }

  lemma {:induction false} SettledParts(env: Env, t: Tx, p: Purchase, r: Progress)
    requires r.Progress? && r.left <= t.gas && t.origin.Signer? && FeesChecked(t)
    requires p.payer.credit.Some? ==> t.gas * p.price <= p.payer.credit.value.1
    requires p.price == EffectiveGasPrice(t, env.baseFee, p.basePrice) && p.price >= env.baseFee
    ensures var d := Settled(env, t, p, r);
            && d.world == AddEnergy(env.src, Returned(env, t, p, r.world, r.left), env.beneficiary, d.receipt.reward)
            && d.receipt.paid == (t.gas - r.left) * p.price
  {
  }

  /** The credit in use, if the purchase used one. */
  predicate UsesCredit(p: Purchase, user: Address, cell: Cell) {
    p.payer.credit.Some? && cell == CreditCell(p.payer.credit.value.0, user)
  }

  /**
   * If a clause fails, all clauses are undone: the payer has lost exactly what was paid, a credit in use
   * has shrunk by as much, the beneficiary has the reward, and but for the totals nothing else has changed.
   */
  lemma {:induction false} FailureUndoesClauses(env: Env, w: World, t: Tx, cell: Cell)
    requires Sane(env) && Executed(env, w, t).Some? && Executed(env, w, t).value.receipt.reverted
    requires cell != TotalAddCell && cell != TotalSubCell
    ensures var d := Executed(env, w, t).value;
            var p := Bought(env, w, t).value;
            Value(env.src, d.world, cell) == Value(env.src, w, cell)
              - (if cell == EnergyCell(d.receipt.payer) || UsesCredit(p, t.origin.addr, cell) then d.receipt.paid else 0)
              + (if cell == EnergyCell(env.beneficiary) then d.receipt.reward else 0)
  {
    BoughtCharges(env, w, t, cell);
    var p := Bought(env, w, t).value;
    var r := ProgressOf(env, w, t);
    SettledWorld(env, t, p, r, cell);
    Distribute(p.price, t.gas - r.left, r.left);
  }

  lemma {:induction false} FailureTotals(env: Env, w: World, t: Tx)
    requires Sane(env) && Executed(env, w, t).Some? && Executed(env, w, t).value.receipt.reverted
    ensures var d := Executed(env, w, t).value;
            var p, left := Bought(env, w, t).value, t.gas - d.receipt.gasUsed;
            && Value(env.src, d.world, TotalSubCell) == Value(env.src, w, TotalSubCell) + t.gas * p.price
            && Value(env.src, d.world, TotalAddCell) == Value(env.src, w, TotalAddCell) + left * p.price + d.receipt.reward
            && d.receipt.paid == d.receipt.gasUsed * p.price
  {
    BoughtCharges(env, w, t, TotalAddCell);
    BoughtCharges(env, w, t, TotalSubCell);
    var p := Bought(env, w, t).value;
    var r := ProgressOf(env, w, t);
    SettledWorld(env, t, p, r, TotalAddCell);
    SettledWorld(env, t, p, r, TotalSubCell);
  }

  /** Then the energy burned so far, what was taken less what was added, grows by what was paid less the reward. */
  lemma {:induction false} FailureBurns(env: Env, w: World, t: Tx)
    requires Sane(env) && Executed(env, w, t).Some? && Executed(env, w, t).value.receipt.reverted
    ensures var d := Executed(env, w, t).value;
            Value(env.src, d.world, TotalSubCell) - Value(env.src, d.world, TotalAddCell)
              == Value(env.src, w, TotalSubCell) - Value(env.src, w, TotalAddCell) + d.receipt.paid - d.receipt.reward
  {
    FailureTotals(env, w, t);
    GasUsedBounds(env, w, t);
    var used := Executed(env, w, t).value.receipt.gasUsed;
    Distribute(Bought(env, w, t).value.price, used, t.gas - used);
  }
}
