/** The integer arithmetic of the economy: sell values, upgrade prices,
    wave scaling and wave bonuses.

    The source computes these as `Math.floor` of a floating-point product
    (cost * 0.7, cost * (level + 1) * 0.6, sellValue * 1.4,
    health * (1 + (wave - 1) * 0.2)). Here each is an exact integer quotient,
    and the lemmas below show that it is the floor of the exact rational
    product the source writes. Double-precision rounding is not modelled:
    where the double product falls just short of an integer (85 * 1.4 is
    118.99999999999999), the source's floor is one less. */
module Economy {

  /** Gold returned when selling a tower that was never upgraded: floor(0.7 * cost). */
  function PlacementSellValue(cost: int): int
  {
    cost * 7 / 10
  }

  /** Price of raising a tower from `level` to `level + 1`: floor(cost * (level + 1) * 0.6). */
  function UpgradeCost(cost: int, level: int): int
  {
    cost * (level + 1) * 6 / 10
  }

  /** Sell value after one more upgrade: floor(1.4 * sellValue). */
  function UpgradedSellValue(sellValue: int): int
  {
    sellValue * 14 / 10
  }

  /** A base stat scaled for wave `wave`: floor(base * (1 + (wave - 1) * 0.2)),
      the multiplier being (wave + 4) / 5 exactly. */
  function Scaled(base: int, wave: int): int
  {
    base * (wave + 4) / 5
  }

  /** Number of enemies in wave `wave`. */
  function WaveSize(wave: int): int
  {
    5 + wave * 2
  }

  /** Gold granted on completing a wave, in terms of the new wave number. */
  function WaveBonus(newWave: int): int
  {
    20 + newWave * 5
  }

  /** Sell value of a tower of placement price `cost` at `level`: the
      placement value, raised by one `UpgradedSellValue` per upgrade. */
  function SellValueAtLevel(cost: int, level: nat): int
    requires level >= 1
  {
    if level == 1 then PlacementSellValue(cost)
    else UpgradedSellValue(SellValueAtLevel(cost, level - 1))
  }

  /** Integer division by a positive divisor is the floor of the real quotient. */
  lemma QuotientIsFloor(a: int, d: int)
    requires d > 0
    ensures a / d == (a as real / d as real).Floor
  {
    var q, r := a / d, a % d;
    assert a == d * q + r && 0 <= r < d;
    assert a as real / d as real == q as real + r as real / d as real;
    assert 0.0 <= r as real / d as real < 1.0;
  }

  /** The four integer formulas are the floors of the source's products. */
  lemma FormulasAreFloors(cost: int, level: int, sellValue: int, base: int, wave: int)
    ensures PlacementSellValue(cost) == (cost as real * 0.7).Floor
    ensures UpgradeCost(cost, level) == ((cost * (level + 1)) as real * 0.6).Floor
    ensures UpgradedSellValue(sellValue) == (sellValue as real * 1.4).Floor
    ensures Scaled(base, wave) == (base as real * (1.0 + (wave - 1) as real * 0.2)).Floor
  {
    QuotientIsFloor(cost * 7, 10);
    assert (cost * 7) as real / 10.0 == cost as real * 0.7;
    var n := cost * (level + 1);
    QuotientIsFloor(n * 6, 10);
    assert (n * 6) as real / 10.0 == n as real * 0.6;
    QuotientIsFloor(sellValue * 14, 10);
    assert (sellValue * 14) as real / 10.0 == sellValue as real * 1.4;
    var m := base * (wave + 4);
    QuotientIsFloor(m, 5);
    assert m as real == base as real * (wave + 4) as real;
    assert m as real / 5.0 == base as real * (1.0 + (wave - 1) as real * 0.2);
  }

  /** An upgrade never lowers the sell value, and raises it once it is at least 3. */
  lemma UpgradeRaisesSellValue(sellValue: int)
    requires sellValue >= 0
    ensures UpgradedSellValue(sellValue) >= sellValue
    ensures sellValue >= 3 ==> UpgradedSellValue(sellValue) > sellValue
  {
  }

  /** The sell value never falls below the placement value. */
  lemma {:induction false} SellValueAtLeastPlacement(cost: int, level: nat)
    requires cost >= 0 && level >= 1
    ensures SellValueAtLevel(cost, level) >= PlacementSellValue(cost) >= 0
  {
    if level > 1 {
      SellValueAtLeastPlacement(cost, level - 1);
      UpgradeRaisesSellValue(SellValueAtLevel(cost, level - 1));
    }
  }

  /** For every tower that costs at least 5 gold (all catalogue towers cost at
      least 15) the sell value strictly increases with the level. */
  lemma SellValueStrictlyIncreases(cost: int, level: nat)
    requires cost >= 5 && level >= 1
    ensures SellValueAtLevel(cost, level + 1) > SellValueAtLevel(cost, level)
  {
    SellValueAtLeastPlacement(cost, level);
    UpgradeRaisesSellValue(SellValueAtLevel(cost, level));
  }

  /** Upgrades get more expensive with the level. */
  lemma UpgradeCostGrows(cost: int, level: int)
    requires cost >= 0
    ensures UpgradeCost(cost, level + 1) >= UpgradeCost(cost, level)
  {
    assert cost * (level + 2) * 6 == cost * (level + 1) * 6 + cost * 6;
  }

  /** Wave scaling leaves wave 1 unscaled and never shrinks a non-negative
      stat as the waves go on. */
  lemma ScaledGrowsWithWave(base: int, wave: int)
    requires base >= 0
    ensures Scaled(base, 1) == base
    ensures Scaled(base, wave + 1) >= Scaled(base, wave)
  {
    assert base * (wave + 5) == base * (wave + 4) + base;
  }
}
