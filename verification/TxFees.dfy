/**
 * Transactions, the energy they are paid with, and what gas costs.
 */
module TxFees {
  import opened Wrappers
  import opened Arithmetic
  import opened StackedMaps

  const U64: nat := 0x1_0000_0000_0000_0000

  function Wrap64(x: nat): nat {
    x % 0x1_0000_0000_0000_0000
  }

  const U256: nat := 0x1_0000_0000_0000_0000_0000_0000_0000_0000_0000_0000_0000_0000_0000_0000_0000_0000
  const E18: nat := 1_000_000_000_000_000_000

  /** Words of 256 bits are four of 64. */
  lemma {:induction false} Words()
    ensures U64 == 0x1_0000_0000 * 0x1_0000_0000 && U256 == U64 * U64 * U64 * U64
  {
  }

  datatype Clause = Clause(to: Option<Address>, value: int)

  datatype Fee = Legacy(coef: nat) | Dynamic(maxFee: int, maxPriorityFee: int)

  /** `Unrecoverable` stands for a signature from which the address cannot be recovered. */
  datatype Signer = Signer(addr: Address) | Unrecoverable

  /** `work` is the gas that the proved work of a legacy transaction is worth in this block. */
  datatype Tx = Tx(
    id: nat, origin: Signer, delegator: Option<Signer>, clauses: seq<Clause>, gas: nat, intrinsicGas: Option<nat>,
    fee: Fee, work: nat, chainTag: nat, blockRef: nat, expiration: nat, features: set<nat>, unusedReserved: bool,
    dependsOn: Option<nat>)

  // ---------- Prices ----------

  function Min(x: int, y: int): int {
    if x <= y then x else y
  }

  function LegacyPrice(coef: nat, basePrice: nat): nat {
    coef * basePrice / 255 + basePrice
  }

  function EffectiveGasPrice(t: Tx, baseFee: nat, basePrice: nat): int {
    match t.fee
    case Legacy(coef) => LegacyPrice(coef, basePrice)
    case Dynamic(maxFee, maxPriorityFee) => Min(maxFee, maxPriorityFee + baseFee)
  }

  function OverallGasPrice(t: Tx, basePrice: nat): int {
    match t.fee
    case Dynamic(maxFee, _) => maxFee
    case Legacy(coef) =>
      if t.work == 0 || t.gas == 0 then LegacyPrice(coef, basePrice)
      else Min(t.work, t.gas) * basePrice / t.gas + LegacyPrice(coef, basePrice)
  }

  function PriorityFee(t: Tx, baseFee: nat, basePrice: nat): int {
    match t.fee
    case Legacy(_) => Min(OverallGasPrice(t, basePrice) - baseFee, OverallGasPrice(t, basePrice))
    case Dynamic(maxFee, maxPriorityFee) => Min(maxFee - baseFee, maxPriorityFee)
  }

  /** The price coefficient, a byte, spans from the base price to twice the base price. */
  lemma {:induction false} LegacyPriceSpan(coef: nat, basePrice: nat)
    requires coef <= 255
    ensures LegacyPrice(0, basePrice) == basePrice <= LegacyPrice(coef, basePrice) <= LegacyPrice(255, basePrice) == 2 * basePrice
  {
    ShareOf(coef, 255, basePrice);
    assert 0 * basePrice == 0;
  }

  /**
   * The price of gas: for a legacy transaction it exceeds the base price by the share of the coefficient in 255, rounded down;
   * with dynamic fees it is the lesser of the fee offered at most, and the base fee with the priority fee offered at most.
   */
  lemma {:induction false} EffectivePriceIs(t: Tx, baseFee: nat, basePrice: nat)
    ensures t.fee.Legacy? ==>
              var extra := EffectiveGasPrice(t, baseFee, basePrice) - basePrice;
              255 * extra <= t.fee.coef * basePrice < 255 * extra + 255
    ensures t.fee.Dynamic? ==>
              var price := EffectiveGasPrice(t, baseFee, basePrice);
              && price <= t.fee.maxFee && price <= baseFee + t.fee.maxPriorityFee
              && (price == t.fee.maxFee || price == baseFee + t.fee.maxPriorityFee)
  {
    if t.fee.Legacy? {
      RoundedDown(t.fee.coef * basePrice, 255);
    }
  }

  /** Proved work raises the price by its share in the gas, rounded down, and at most by the base price. */
  lemma {:induction false} OverallPriceIs(t: Tx, baseFee: nat, basePrice: nat)
    ensures t.fee.Legacy? && t.work < t.gas ==>
              var extra := OverallGasPrice(t, basePrice) - EffectiveGasPrice(t, baseFee, basePrice);
              t.gas * extra <= t.work * basePrice < t.gas * extra + t.gas
    ensures t.fee.Legacy? && t.work >= t.gas ==>
              OverallGasPrice(t, basePrice) == EffectiveGasPrice(t, baseFee, basePrice) + if t.gas > 0 then basePrice else 0
    ensures t.fee.Dynamic? ==> OverallGasPrice(t, basePrice) == t.fee.maxFee
  {
    if t.fee.Legacy? && t.gas > 0 {
      if t.work < t.gas {
        RoundedDown(t.work * basePrice, t.gas);
        assert t.work == 0 ==> t.work * basePrice == 0;
      } else {
        WholeShare(t.gas, basePrice);
      }
    }
  }

  /** The priority fee is what the price leaves above the base fee; it is never more than was offered. */
  lemma {:induction false} PriorityFeeIs(t: Tx, baseFee: nat, basePrice: nat)
    ensures t.fee.Legacy? ==> PriorityFee(t, baseFee, basePrice) == OverallGasPrice(t, basePrice) - baseFee
    ensures t.fee.Dynamic? ==>
              var fee := PriorityFee(t, baseFee, basePrice);
              && fee <= t.fee.maxFee - baseFee && fee <= t.fee.maxPriorityFee
              && (fee == t.fee.maxFee - baseFee || fee == t.fee.maxPriorityFee)
  {
  }

  lemma {:induction false} RoundedDown(y: nat, d: nat)
    requires d > 0
    ensures d * (y / d) <= y < d * (y / d) + d
  {
  }

  lemma {:induction false} WholeShare(d: nat, x: nat)
    requires d > 0
    ensures d * x / d == x
  {
    DivModUnique(d * x, d, x, 0);
  }

  /** Fees of a transaction that passed the basic checks are in order. */
  predicate FeesChecked(t: Tx) {
    t.fee.Dynamic? ==> 0 <= t.fee.maxPriorityFee <= t.fee.maxFee < U256 && t.fee.maxPriorityFee < U256
  }

  lemma {:induction false} OverallAtLeastEffective(t: Tx, baseFee: nat, basePrice: nat)
    ensures t.fee.Legacy? ==> EffectiveGasPrice(t, baseFee, basePrice) <= OverallGasPrice(t, basePrice)
    ensures t.fee.Legacy? ==> OverallGasPrice(t, basePrice) <= EffectiveGasPrice(t, baseFee, basePrice) + basePrice
  {
    if t.fee.Legacy? && t.work != 0 && t.gas != 0 {
      ShareOf(Min(t.work, t.gas), t.gas, basePrice);
    }
  }

  /** Without proved work, all prices of a legacy transaction are the same. */
  lemma {:induction false} OneLegacyPrice(t: Tx, baseFee: nat, basePrice: nat)
    requires t.fee.Legacy? && t.work == 0
    ensures EffectiveGasPrice(t, baseFee, basePrice) == OverallGasPrice(t, basePrice) == LegacyPrice(t.fee.coef, basePrice)
  {
  }

  /** The base price is the price of the lowest coefficient. */
  lemma {:induction false} LowestLegacyPrice(coef: nat, basePrice: nat)
    requires coef == 0
    ensures LegacyPrice(coef, basePrice) == basePrice
  {
    assert coef * basePrice == 0;
  }

  lemma {:induction false} ShareOf(part: nat, whole: nat, x: nat)
    requires part <= whole && whole > 0
    ensures 0 <= part * x / whole <= x
  {
    assert part * x <= whole * x;
    DivBound(part * x, whole, x);
  }

  lemma {:induction false} DivBound(y: nat, whole: nat, x: nat)
    requires whole > 0 && y <= whole * x
    ensures 0 <= y / whole <= x
  {
    if y / whole > x {
      assert false;
    }
  }

  /**
   * A price that covers the base fee leaves a priority fee that is not negative. For dynamic fees the
   * price is exactly base fee plus priority fee; a legacy price lies below that by the proved work only.
   */
  lemma {:induction false} PriceSplits(t: Tx, baseFee: nat, basePrice: nat)
    requires FeesChecked(t) && EffectiveGasPrice(t, baseFee, basePrice) >= baseFee
    ensures PriorityFee(t, baseFee, basePrice) >= 0
    ensures t.fee.Dynamic? ==> EffectiveGasPrice(t, baseFee, basePrice) == baseFee + PriorityFee(t, baseFee, basePrice)
    ensures t.fee.Legacy? ==>
              EffectiveGasPrice(t, baseFee, basePrice) <= baseFee + PriorityFee(t, baseFee, basePrice)
                <= EffectiveGasPrice(t, baseFee, basePrice) + basePrice
  {
    OverallAtLeastEffective(t, baseFee, basePrice);
  }

  // ---------- Energy and credit ----------

  /** The parts of the world that paying for gas touches; everything else is `OtherCell`. */
  datatype Cell =
    | EnergyCell(addr: Address)
    | CreditCell(to: Address, user: Address)
    | TotalAddCell
    | TotalSubCell
    | BaseGasPriceCell
    | RewardRatioCell
    | OtherCell(key: nat)

  type World = seq<Entry<Cell, nat>>
  type Base = Cell -> Lookup<nat>

  function Value(src: Base, w: World, cell: Cell): nat {
    match Read(src, w, cell)
    case Found(v) => v
    case _ => 0
  }

  function Energy(src: Base, w: World, addr: Address): nat {
    Value(src, w, EnergyCell(addr))
  }

  function Set(w: World, cell: Cell, v: nat): World {
    w + [Entry(cell, v)]
  }

  lemma {:induction false} ValueAfterSet(src: Base, w: World, cell: Cell, v: nat, other: Cell)
    ensures Value(src, Set(w, cell, v), other) == if other == cell then v else Value(src, w, other)
  {
    assert Set(w, cell, v)[..|w|] == w;
  }

  function AddEnergy(src: Base, w: World, addr: Address, amount: nat): World {
    if amount == 0 then w
    else
      var w' := Set(w, TotalAddCell, Value(src, w, TotalAddCell) + amount);
      Set(w', EnergyCell(addr), Energy(src, w, addr) + amount)
  }

  function SubEnergy(src: Base, w: World, addr: Address, amount: nat): Option<World> {
    if amount == 0 then Some(w)
    else if Energy(src, w, addr) < amount then None
    else
      var w' := Set(w, TotalSubCell, Value(src, w, TotalSubCell) + amount);
      Some(Set(w', EnergyCell(addr), Energy(src, w, addr) - amount))
  }

  /** Adding energy changes the energy of the one account, and the total that was added. */
  lemma {:induction false} AddedEnergy(src: Base, w: World, addr: Address, amount: nat, cell: Cell)
    ensures w <= AddEnergy(src, w, addr, amount)
    ensures Value(src, AddEnergy(src, w, addr, amount), cell)
         == Value(src, w, cell) + if cell == EnergyCell(addr) || cell == TotalAddCell then amount else 0
  {
    var w' := Set(w, TotalAddCell, Value(src, w, TotalAddCell) + amount);
    ValueAfterSet(src, w, TotalAddCell, Value(src, w, TotalAddCell) + amount, cell);
    ValueAfterSet(src, w', EnergyCell(addr), Energy(src, w, addr) + amount, cell);
  }

  /** Energy is taken exactly if there is enough of it; then one account loses it and the total taken grows. */
  lemma {:induction false} SubtractedEnergy(src: Base, w: World, addr: Address, amount: nat, cell: Cell)
    ensures SubEnergy(src, w, addr, amount).Some? <==> amount <= Energy(src, w, addr)
    ensures amount <= Energy(src, w, addr) ==>
              && w <= SubEnergy(src, w, addr, amount).value
              && Value(src, SubEnergy(src, w, addr, amount).value, cell)
                 == Value(src, w, cell) + (if cell == EnergyCell(addr) then 0 - amount else if cell == TotalSubCell then amount else 0)
  {
    var w' := Set(w, TotalSubCell, Value(src, w, TotalSubCell) + amount);
    ValueAfterSet(src, w, TotalSubCell, Value(src, w, TotalSubCell) + amount, cell);
    if amount <= Energy(src, w, addr) {
      ValueAfterSet(src, w', EnergyCell(addr), Energy(src, w, addr) - amount, cell);
    }
  }
}
