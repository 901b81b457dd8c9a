/** The per-coin breakdown of a portfolio summary and the percentage rule
    shared by the per-coin and the portfolio-wide figures. */
module CoinChanges {

  /** `initial == 0 ? 0 : ((current - initial) / initial) * 100`: never a division by zero. */
  function Percentage(initial: real, current: real): (p: real)
    ensures initial == 0.0 ==> p == 0.0
    ensures initial != 0.0 ==> p * initial == (current - initial) * 100.0
  {
    if initial == 0.0 then 0.0 else ((current - initial) / initial) * 100.0
  }

  /** With a positive base, the change is positive exactly when the value rose, negative
      exactly when it fell, and never below -100% while the new value is not negative. */
  lemma PercentageSign(initial: real, current: real)
    requires initial > 0.0
    ensures Percentage(initial, current) > 0.0 <==> current > initial
    ensures Percentage(initial, current) < 0.0 <==> current < initial
    ensures Percentage(initial, current) == 0.0 <==> current == initial
    ensures current >= 0.0 ==> Percentage(initial, current) >= -100.0
  {
    var p := Percentage(initial, current);
    assert p * initial == (current - initial) * 100.0;
    if p > 0.0 {
      assert p * initial > 0.0;
    } else if p < 0.0 {
      assert p * initial < 0.0;
    } else {
      assert p * initial == 0.0;
    }
    if current >= 0.0 {
      assert (p + 100.0) * initial == current * 100.0;
    }
  }

  /** One entry of the summary (`CoinChange`); the three figures are derived. */
  datatype CoinChange = CoinChange(coin: string, quantity: real, initialPrice: real, currentPrice: real) {

    /** `Quantity * InitialPrice`. */
    function InitialValue(): real {
      quantity * initialPrice
    }

    /** `Quantity * CurrentPrice`. */
    function CurrentValue(): real {
      quantity * currentPrice
    }

    /** The price change in percent; 0 for a zero initial price. */
    function ChangePercentage(): (p: real)
      ensures initialPrice == 0.0 ==> p == 0.0
      ensures initialPrice != 0.0 ==> p * initialPrice == (currentPrice - initialPrice) * 100.0
      ensures initialPrice > 0.0 ==> (p > 0.0 <==> currentPrice > initialPrice)
      ensures initialPrice > 0.0 ==> (p < 0.0 <==> currentPrice < initialPrice)
      ensures initialPrice > 0.0 && currentPrice >= 0.0 ==> p >= -100.0
    {
      if initialPrice > 0.0 then
        PercentageSign(initialPrice, currentPrice);
        Percentage(initialPrice, currentPrice)
      else
        Percentage(initialPrice, currentPrice)
    }
  }

  /** The per-coin change does not depend on how much of the coin is held, and for a
      non-zero quantity it equals the change of the holding's total value. */
  lemma ChangeIsPerUnit(c: CoinChange, q: real)
    ensures c.(quantity := q).ChangePercentage() == c.ChangePercentage()
    ensures c.quantity != 0.0 ==>
      Percentage(c.InitialValue(), c.CurrentValue()) == c.ChangePercentage()
  {
  }
}
