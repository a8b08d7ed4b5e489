/** The verdict of the risk evaluator on a signal.
    Source: internal/application/risk/evaluator.go, internal/domain/portfolio_snapshot.go. */
module RiskEvaluator {
  datatype Policy = Policy(
    maxPositionSize: real, maxLeverage: real, minMarginRatio: real, maxDailyLoss: real, maxExposure: real)

  datatype Snapshot = Snapshot(totalBalance: real, availableMargin: real, totalExposure: real, realizedPnL: real)

  /** NewPortfolioSnapshot, which the cache hands out for a user it has no snapshot of. */
  const NEW_SNAPSHOT := Snapshot(0.0, 0.0, 0.0, 0.0)

  /** checkLeverage. The floating-point quotient by a zero balance is positive infinity for a positive exposure, and
      compares as not greater otherwise. */
  predicate LeverageExceeds(policy: Policy, snapshot: Snapshot, orderValue: real) {
    var exposure := snapshot.totalExposure + orderValue;
    if snapshot.totalBalance == 0.0 then exposure > 0.0 else exposure / snapshot.totalBalance > policy.maxLeverage
  }

  /** EvaluateSignal: the five checks in their order; `price` is the signal's confidence. */
  predicate Approves(policy: Policy, snapshot: Snapshot, quantity: real, price: real) {
    var orderValue := quantity * price;
    && orderValue <= policy.maxPositionSize
    && !LeverageExceeds(policy, snapshot, orderValue)
    && snapshot.totalBalance != 0.0 && snapshot.availableMargin / snapshot.totalBalance >= policy.minMarginRatio
    && snapshot.realizedPnL >= policy.maxDailyLoss
    && snapshot.totalExposure + orderValue <= policy.maxExposure
  }

  /** Some policy approves a signal on a portfolio exactly when the portfolio's balance is not zero. */
  lemma ApprovableIff(snapshot: Snapshot, quantity: real, price: real)
    ensures (exists policy :: Approves(policy, snapshot, quantity, price)) <==> snapshot.totalBalance != 0.0
  {
    if snapshot.totalBalance != 0.0 {
      var orderValue := quantity * price;
      var exposure := snapshot.totalExposure + orderValue;
      var policy := Policy(orderValue, exposure / snapshot.totalBalance,
                           snapshot.availableMargin / snapshot.totalBalance, snapshot.realizedPnL, exposure);
      assert Approves(policy, snapshot, quantity, price);
    }
  }

  lemma QuotientBound(x: real, y: real, bound: real)
    requires y != 0.0
    ensures y > 0.0 ==> (x / y <= bound <==> x <= bound * y) && (x / y >= bound <==> x >= bound * y)
    ensures y < 0.0 ==> (x / y <= bound <==> x >= bound * y) && (x / y >= bound <==> x <= bound * y)
  {
    var q := x / y;
    assert q * y == x;
    assert (q - bound) * y == x - bound * y;
    SignOfProduct(q - bound, y);
  }

  lemma SignOfProduct(x: real, y: real)
    requires y != 0.0
    ensures x * y > 0.0 <==> (x > 0.0 && y > 0.0) || (x < 0.0 && y < 0.0)
    ensures x * y == 0.0 <==> x == 0.0
  {
  }

  /** With a positive balance a signal is approved exactly within five limits on the position, the loss, the total
      exposure, the exposure per balance and the margin per balance. With a negative balance the last two are turned
      round: only what exceeds them is approved. */
  lemma ApprovesIff(policy: Policy, snapshot: Snapshot, quantity: real, price: real)
    ensures var balance := snapshot.totalBalance; var exposure := snapshot.totalExposure + quantity * price;
      var others := quantity * price <= policy.maxPositionSize && snapshot.realizedPnL >= policy.maxDailyLoss
        && exposure <= policy.maxExposure;
      && (balance > 0.0 ==>
            (Approves(policy, snapshot, quantity, price) <==>
               && others && exposure <= policy.maxLeverage * balance
               && snapshot.availableMargin >= policy.minMarginRatio * balance))
      && (balance < 0.0 ==>
            (Approves(policy, snapshot, quantity, price) <==>
               && others && exposure >= policy.maxLeverage * balance
               && snapshot.availableMargin <= policy.minMarginRatio * balance))
      && (balance == 0.0 ==> !Approves(policy, snapshot, quantity, price))
  {
    if snapshot.totalBalance != 0.0 {
      QuotientBound(snapshot.totalExposure + quantity * price, snapshot.totalBalance, policy.maxLeverage);
      QuotientBound(snapshot.availableMargin, snapshot.totalBalance, policy.minMarginRatio);
    }
  }

  /** So no limit on the leverage refuses anything on a portfolio whose balance is below zero. */
  lemma NegativeBalanceHasNoLeverageLimit(policy: Policy, snapshot: Snapshot, orderValue: real)
    requires snapshot.totalBalance < 0.0 && policy.maxLeverage >= 0.0 && snapshot.totalExposure + orderValue >= 0.0
    ensures !LeverageExceeds(policy, snapshot, orderValue)
  {
    QuotientBound(snapshot.totalExposure + orderValue, snapshot.totalBalance, policy.maxLeverage);
    if policy.maxLeverage > 0.0 {
      SignOfProduct(policy.maxLeverage, snapshot.totalBalance);
    }
  }
}
