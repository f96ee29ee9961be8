/** Values, total and weights of the positions of a portfolio snapshot. */
module PortfolioWeights {
  import opened Money

  datatype Asset = Asset(liquid: real, staked: real, pending: real, priceTl: real, priceUsd: real)

  /** A position without a lira price is valued through its dollar price. */
  function ValueTl(a: Asset, usdTl: real): real {
    (a.liquid + a.staked + a.pending) * (if a.priceTl > 0.0 then a.priceTl else a.priceUsd * usdTl)
  }

  function SumTl(assets: seq<Asset>, usdTl: real): real {
    if assets == [] then 0.0 else SumTl(assets[..|assets| - 1], usdTl) + ValueTl(assets[|assets| - 1], usdTl)
  }

  /** The weight of a position in hundredths of a percent. */
  function Weight(a: Asset, usdTl: real, total: real): int {
    if total > 0.0 then HalfEven(ValueTl(a, usdTl) / total * 100.0) else 0
  }

  function SumWeights(assets: seq<Asset>, usdTl: real, total: real): int {
    if assets == [] then 0 else SumWeights(assets[..|assets| - 1], usdTl, total) + Weight(assets[|assets| - 1], usdTl, total)
  }

  /** The accumulating loop of both callers; the second result is the total the snapshot stores. */
  method SumAssetTotal(assets: seq<Asset>, usdTl: real) returns (total: real, cents: int)
    ensures total == SumTl(assets, usdTl) && cents == HalfEven(total)
  {
    total := 0.0;
    for i := 0 to |assets|
      invariant total == SumTl(assets[..i], usdTl)
    {
      assert assets[..i + 1][..i] == assets[..i];
      var price := if assets[i].priceTl > 0.0 then assets[i].priceTl else assets[i].priceUsd * usdTl;
      var quantity := assets[i].liquid + assets[i].staked + assets[i].pending;
      total := total + quantity * price;
    }
    assert assets[..|assets|] == assets;
    cents := HalfEven(total);
  }

  /** Each kind of quantity counts at the same price: its lira price, or the dollar price where it has none. */
  lemma QuantitiesCountAlike(a: Asset, q: real, usdTl: real)
    ensures
      var price := if a.priceTl > 0.0 then a.priceTl else a.priceUsd * usdTl;
      && ValueTl(Asset(0.0, 0.0, 0.0, a.priceTl, a.priceUsd), usdTl) == 0.0
      && ValueTl(a.(liquid := a.liquid + q), usdTl) == ValueTl(a, usdTl) + q * price
      && ValueTl(a.(staked := a.staked + q), usdTl) == ValueTl(a, usdTl) + q * price
      && ValueTl(a.(pending := a.pending + q), usdTl) == ValueTl(a, usdTl) + q * price
  {
    var price := if a.priceTl > 0.0 then a.priceTl else a.priceUsd * usdTl;
    ValueGrows(a.liquid + a.staked + a.pending, q, price);
  }

  lemma ValueGrows(n: real, q: real, price: real)
    ensures (n + q) * price == n * price + q * price && 0.0 * price == 0.0
  {
  }

  /**
   A weight is the percentage of the total that the position is worth, rounded half to even; without a total
   it is zero.
   */
  lemma WeightExactly(a: Asset, usdTl: real, total: real) returns (percent: real)
    ensures total > 0.0 ==> percent * total == 100.0 * ValueTl(a, usdTl) && IsHalfEven(percent, Weight(a, usdTl, total))
    ensures total <= 0.0 ==> Weight(a, usdTl, total) == 0
  {
    percent := 0.0;
    if total > 0.0 {
      percent := ValueTl(a, usdTl) / total * 100.0;
      HalfEvenExact(percent, HalfEven(percent));
      PercentReturns(ValueTl(a, usdTl), total);
    }
  }

  lemma PercentReturns(value: real, total: real)
    requires total > 0.0
    ensures value / total * 100.0 * total == 100.0 * value
  {
    assert value / total * total == value;
  }

  /** A part's share of the total, in hundredths of a percent. */
  function Share(part: real, total: real): real
    requires total > 0.0
  {
    part / total * 10000.0
  }

  lemma SharesAdd(x: real, y: real, total: real)
    requires total > 0.0
    ensures Share(x + y, total) == Share(x, total) + Share(y, total)
  {
    assert (x + y) / total == x / total + y / total;
  }

  lemma WeightIsNear(a: Asset, usdTl: real, total: real)
    requires total > 0.0
    ensures -0.5 <= Weight(a, usdTl, total) as real - Share(ValueTl(a, usdTl), total) <= 0.5
  {
    HalfEvenNear(ValueTl(a, usdTl) / total * 100.0);
    assert ValueTl(a, usdTl) / total * 100.0 * 100.0 == Share(ValueTl(a, usdTl), total);
  }

  /**
   Every weight is off by at most half a unit, so the weights are off by half a unit per position from the
   sum's own share.
   */
  lemma {:induction false} WeightsFollowTheSum(assets: seq<Asset>, usdTl: real, total: real)
    requires total > 0.0
    ensures
      var gap := SumWeights(assets, usdTl, total) as real - Share(SumTl(assets, usdTl), total);
      -(|assets| as real) <= 2.0 * gap <= |assets| as real
  {
    if assets == [] {
    } else {
      var n, last := |assets| - 1, assets[|assets| - 1];
      WeightsFollowTheSum(assets[..n], usdTl, total);
      WeightIsNear(last, usdTl, total);
      SharesAdd(SumTl(assets[..n], usdTl), ValueTl(last, usdTl), total);
    }
  }

  /** With the unrounded total, the weights of n positions sum to 100 percent within 0.005 n. */
  lemma WeightsSumToHundred(assets: seq<Asset>, usdTl: real)
    requires SumTl(assets, usdTl) > 0.0
    ensures var gap := SumWeights(assets, usdTl, SumTl(assets, usdTl)) - 10000; -|assets| <= 2 * gap <= |assets|
  {
    WeightsFollowTheSum(assets, usdTl, SumTl(assets, usdTl));
    WholeShare(SumTl(assets, usdTl));
  }

  lemma WholeShare(total: real)
    requires total > 0.0
    ensures Share(total, total) == 10000.0
  {
  }

  /** With the rounded total T, within 0.005 n plus 0.5 / T. */
  lemma WeightsSumNearHundred(assets: seq<Asset>, usdTl: real)
    requires HalfEven(SumTl(assets, usdTl)) > 0
    ensures
      var total := Amount(HalfEven(SumTl(assets, usdTl)));
      var gap := SumWeights(assets, usdTl, total) as real - 10000.0;
      -(|assets| as real) - 100.0 / total <= 2.0 * gap <= |assets| as real + 100.0 / total
  {
    var sum := SumTl(assets, usdTl);
    var total := Amount(HalfEven(sum));
    WeightsFollowTheSum(assets, usdTl, total);
    HalfEvenNear(sum);
    ShareNearWhole(sum, total);
    var weights, share, bound := SumWeights(assets, usdTl, total) as real, Share(sum, total), 100.0 / total;
    assert 2.0 * (weights - 10000.0) == 2.0 * (weights - share) + 2.0 * (share - 10000.0);
    assert -100.0 / total == -bound;
  }

  lemma ShareNearWhole(sum: real, total: real)
    requires total > 0.0 && -0.005 <= sum - total <= 0.005
    ensures -100.0 / total <= 2.0 * (Share(sum, total) - 10000.0) <= 100.0 / total
  {
    var d := sum - total;
    SharesAdd(total, d, total);
    WholeShare(total);
    assert total + d == sum;
    assert 2.0 * Share(d, total) == d * 20000.0 / total;
    QuotientMonotone(d * 20000.0, 100.0, total);
    QuotientMonotone(-100.0, d * 20000.0, total);
  }
}
