/**
 * Energy grows with the balance and with time, until growth is stopped.
 */
module EnergyGrowth {
  import opened WorldState

  /** What a balance yields in so many seconds: 5 * 10^9 parts of 10^18 per second. */
  function Yield(balance: nat, seconds: nat): nat {
    balance * seconds * 5_000_000_000 / 1_000_000_000_000_000_000
  }

  function CalcEnergy(a: Account, now: nat, stop: nat): nat {
    if a.blockTime == 0 || a.balance == 0 || now <= a.blockTime then a.energy
    else if a.blockTime < stop then a.energy + Yield(a.balance, (if now <= stop then now else stop) - a.blockTime)
    else a.energy
  }

  /** The account after its energy was brought up to date. */
  function Settled(a: Account, now: nat, stop: nat): Account {
    a.(energy := CalcEnergy(a, now, stop), blockTime := now)
  }

  /**
   * An account grows by 5 * 10^9 parts of 10^18 of its balance for every second from its own time to now, or to the stop if
   * that is earlier, rounded down once. It does not grow if it has no time, or one that is not before both.
   */
  lemma {:induction false} GrowthIs(a: Account, now: nat, stop: nat)
    ensures var growth, end := CalcEnergy(a, now, stop) - a.energy, if now <= stop then now else stop;
            if 0 < a.blockTime < end then
              var product := a.balance * (end - a.blockTime) * 5_000_000_000;
              1_000_000_000_000_000_000 * growth <= product < 1_000_000_000_000_000_000 * growth + 1_000_000_000_000_000_000
            else growth == 0
  {
    var end := if now <= stop then now else stop;
    if 0 < a.blockTime < end {
      FloorBounds(a.balance * (end - a.blockTime) * 5_000_000_000);
    }
  }

  lemma {:induction false} FloorBounds(x: nat)
    ensures var e := 1_000_000_000_000_000_000; e * (x / e) <= x < e * (x / e) + e
  {
  }

  lemma {:induction false} YieldSplits(balance: nat, x: nat, y: nat)
    ensures Yield(balance, x) + Yield(balance, y) <= Yield(balance, x + y) <= Yield(balance, x) + Yield(balance, y) + 1
  {
    assert balance * (x + y) == balance * x + balance * y;
    FloorSplits(balance * x * 5_000_000_000, balance * y * 5_000_000_000);
  }

  lemma {:induction false} FloorSplits(x: nat, y: nat)
    ensures var e := 1_000_000_000_000_000_000; x / e + y / e <= (x + y) / e <= x / e + y / e + 1
  {
  }

  lemma {:induction false} YieldGrows(balance: nat, x: nat, y: nat)
    requires x <= y
    ensures 0 == Yield(balance, 0) <= Yield(balance, x) <= Yield(balance, y)
  {
    YieldSplits(balance, x, y - x);
    assert balance * 0 == 0;
  }

  /** Energy never shrinks with time, and stays the same once growth has stopped. */
  lemma {:induction false} EnergyMonotone(a: Account, now: nat, later: nat, stop: nat)
    requires now <= later
    ensures CalcEnergy(a, now, stop) <= CalcEnergy(a, later, stop)
    ensures stop <= now ==> CalcEnergy(a, now, stop) == CalcEnergy(a, later, stop)
  {
    if a.blockTime < now && a.blockTime < stop {
      YieldGrows(a.balance, (if now <= stop then now else stop) - a.blockTime, (if later <= stop then later else stop) - a.blockTime);
    } else if a.blockTime < later && a.blockTime < stop {
      YieldGrows(a.balance, 0, (if later <= stop then later else stop) - a.blockTime);
    }
  }

  /** Bringing energy up to date in between never gains energy, and loses at most one unit. */
  lemma {:induction false} SettlingIsNeutral(a: Account, now: nat, later: nat, stop: nat)
    requires 0 < a.blockTime <= now <= later
    ensures CalcEnergy(Settled(a, now, stop), later, stop) <= CalcEnergy(a, later, stop) <= CalcEnergy(Settled(a, now, stop), later, stop) + 1
  {
    var m, n := if now <= stop then now else stop, if later <= stop then later else stop;
    if a.blockTime < stop {
      YieldSplits(a.balance, m - a.blockTime, n - m);
      YieldGrows(a.balance, 0, n - m);
      YieldGrows(a.balance, 0, m - a.blockTime);
    }
  }

  /** Settling now does not change what is read now. */
  lemma {:induction false} SettlingNow(a: Account, now: nat, stop: nat)
    ensures CalcEnergy(Settled(a, now, stop), now, stop) == CalcEnergy(a, now, stop)
  {
  }
}
