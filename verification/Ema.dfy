/** The EMA cross engine: two exponential averages of a price stream, and a signal where they cross.
    Source: internal/application/strategy/ema_strategy.go. */
module Ema {
  import opened Wrappers
  import opened Signals

  /** The stored configuration: nothing, bytes that do not decode, or a JSON object. */
  datatype RawConfig = Empty | Malformed | Json(fast: int, slow: int, signal: int)

  datatype Periods = Periods(fast: int, slow: int)

  /** Missing periods get their defaults; None is an error of Evaluate. */
  function PeriodsOf(raw: RawConfig): (periods: Option<Periods>)
    ensures periods.Some? ==> 0 < periods.value.fast < periods.value.slow
  {
    match raw
    case Empty => Some(Periods(12, 26))
    case Malformed => None
    case Json(f, s, signal) =>
      var fast := if f == 0 then 12 else f;
      var slow := if s == 0 then 26 else s;
      if fast <= 0 || slow <= 0 || signal < 0 || fast >= slow then None else Some(Periods(fast, slow))
  }

  /** A missing period is 12 or 26. */
  lemma MissingPeriodsHaveDefaults(fast: int, slow: int, signal: int)
    ensures PeriodsOf(Empty) == PeriodsOf(Json(12, 26, 9))
    ensures PeriodsOf(Json(0, slow, signal)) == PeriodsOf(Json(12, slow, signal))
    ensures PeriodsOf(Json(fast, 0, signal)) == PeriodsOf(Json(fast, 26, signal))
  {
  }

  /** The weight that an average over that many prices gives to a new one. */
  function Alpha(n: int): real
    requires n > 0
  {
    2.0 / (n + 1) as real
  }

  lemma ProductSign(x: real, y: real)
    requires x >= 0.0 && y >= 0.0
    ensures x * y >= 0.0 && (x > 0.0 && y > 0.0 ==> x * y > 0.0)
  {
  }

  lemma AlphaFalls(fast: int, slow: int)
    requires 0 < fast < slow
    ensures 0.0 < Alpha(slow) < Alpha(fast) <= 1.0
  {
    var x, y := (fast + 1) as real, (slow + 1) as real;
    var p, q := Alpha(fast), Alpha(slow);
    assert p * x == 2.0 && q * y == 2.0;
    SmallerFactor(p, x, q, y);
    if p > 1.0 { SmallerFactor(2.0, 1.0, p, x); }
  }

  lemma SmallerFactor(p: real, x: real, q: real, y: real)
    requires p * x == q * y && 0.0 < x < y && q > 0.0
    ensures q < p
  {
    LargerSecond(q, x, y);
    if q >= p { LargerFirst(p, q, x); }
  }

  lemma LargerSecond(q: real, x: real, y: real)
    requires q > 0.0 && x < y
    ensures q * x < q * y
  {
    ProductSign(q, y - x);
  }

  lemma LargerFirst(p: real, q: real, x: real)
    requires p <= q && x > 0.0
    ensures p * x <= q * x
  {
    ProductSign(q - p, x);
  }

  /** What makes it an average "over n prices": the mean age of the prices in it, (1 - alpha) / alpha, is that of
      the last n prices, (n - 1) / 2. */
  lemma MeanAge(n: int)
    requires n > 0
    ensures 2.0 * (1.0 - Alpha(n)) == (n - 1) as real * Alpha(n)
  {
    var x := (n + 1) as real;
    assert 2.0 / x * x == 2.0;
  }

  /** The weights of the two averages. */
  datatype Config = Config(fast: real, slow: real)

  predicate Valid(cfg: Config) {
    0.0 < cfg.slow < cfg.fast <= 1.0
  }

  function Decoded(raw: RawConfig): (cfg: Option<Config>)
    ensures cfg.Some? <==> PeriodsOf(raw).Some?
    ensures cfg.Some? ==> Valid(cfg.value)
  {
    match PeriodsOf(raw)
    case None => None
    case Some(periods) =>
      AlphaFalls(periods.fast, periods.slow);
      Some(Config(Alpha(periods.fast), Alpha(periods.slow)))
  }

  datatype State = State(fast: real, slow: real, prevDiff: real, initialized: bool)

  const START := State(0.0, 0.0, 0.0, false)

  function Mixed(alpha: real, price: real, average: real): real {
    alpha * price + (1.0 - alpha) * average
  }

  function Advance(cfg: Config, st: State, price: real): State
    requires Valid(cfg)
  {
    if !st.initialized then State(price, price, 0.0, true)
    else
      var fast := Mixed(cfg.fast, price, st.fast);
      var slow := Mixed(cfg.slow, price, st.slow);
      State(fast, slow, fast - slow, true)
  }

  function ActionOn(cfg: Config, st: State, price: real): Action
    requires Valid(cfg)
  {
    var diff := Advance(cfg, st, price).prevDiff;
    if !st.initialized then Hold
    else if st.prevDiff >= 0.0 && diff < 0.0 then Sell
    else if st.prevDiff <= 0.0 && diff > 0.0 then Buy
    else Hold
  }

  /** The state after a stream of prices. */
  function After(cfg: Config, prices: seq<real>): State
    requires Valid(cfg)
  {
    if prices == [] then START else Advance(cfg, After(cfg, prices[..|prices| - 1]), prices[|prices| - 1])
  }

  function ActionAt(cfg: Config, prices: seq<real>, i: nat): Action
    requires Valid(cfg) && i < |prices|
  {
    ActionOn(cfg, After(cfg, prices[..i]), prices[i])
  }

  /** Fast average minus slow average, once the price with that index has been seen. */
  function DiffAt(cfg: Config, prices: seq<real>, i: nat): real
    requires Valid(cfg) && i < |prices|
  {
    var st := After(cfg, prices[..i + 1]);
    st.fast - st.slow
  }

  lemma StepAt(cfg: Config, prices: seq<real>, i: nat)
    requires Valid(cfg) && i < |prices|
    ensures After(cfg, prices[..i + 1]) == Advance(cfg, After(cfg, prices[..i]), prices[i])
    ensures After(cfg, prices[..i]).initialized <==> i > 0
  {
    assert prices[..i + 1][..i] == prices[..i];
  }

  lemma PrevDiffIsDiff(cfg: Config, prices: seq<real>, i: nat)
    requires Valid(cfg) && i < |prices|
    ensures After(cfg, prices[..i + 1]).prevDiff == DiffAt(cfg, prices, i)
    ensures DiffAt(cfg, prices, 0) == 0.0
  {
    StepAt(cfg, prices, i);
    StepAt(cfg, prices, 0);
  }

  /** The engine signals exactly where the difference of the two averages leaves one side of zero. */
  lemma SignalsAreCrossings(cfg: Config, prices: seq<real>, i: nat)
    requires Valid(cfg) && i < |prices|
    ensures ActionAt(cfg, prices, 0) == Hold
    ensures i > 0 ==>
      && (ActionAt(cfg, prices, i) == Buy <==> DiffAt(cfg, prices, i - 1) <= 0.0 < DiffAt(cfg, prices, i))
      && (ActionAt(cfg, prices, i) == Sell <==> DiffAt(cfg, prices, i) < 0.0 <= DiffAt(cfg, prices, i - 1))
  {
    StepAt(cfg, prices, i);
    PrevDiffIsDiff(cfg, prices, i);
    if i > 0 {
      PrevDiffIsDiff(cfg, prices, i - 1);
    }
  }

  // ------------------------------------------------------------------- rising streams

  lemma MixWithin(alpha: real, x: real, y: real, lo: real, hi: real)
    requires 0.0 <= alpha <= 1.0 && lo <= x <= hi && lo <= y <= hi
    ensures lo <= Mixed(alpha, x, y) <= hi
  {
    ProductSign(alpha, x - lo);
    ProductSign(1.0 - alpha, y - lo);
    ProductSign(alpha, hi - x);
    ProductSign(1.0 - alpha, hi - y);
  }

  lemma WithinStep(cfg: Config, st: State, price: real, lo: real, hi: real)
    requires Valid(cfg) && lo <= price <= hi
    requires st.initialized ==> lo <= st.fast <= hi && lo <= st.slow <= hi
    ensures var next := Advance(cfg, st, price);
      next.initialized && lo <= next.fast <= hi && lo <= next.slow <= hi
  {
    if st.initialized {
      MixWithin(cfg.fast, price, st.fast, lo, hi);
      MixWithin(cfg.slow, price, st.slow, lo, hi);
    }
  }

  /** Both averages stay between the lowest and the highest price of the stream. */
  lemma {:induction false} AveragesWithin(cfg: Config, prices: seq<real>, lo: real, hi: real)
    requires Valid(cfg) && forall k :: 0 <= k < |prices| ==> lo <= prices[k] <= hi
    ensures After(cfg, prices).initialized <==> prices != []
    ensures prices != [] ==> lo <= After(cfg, prices).fast <= hi && lo <= After(cfg, prices).slow <= hi
  {
    if prices != [] {
      AveragesWithin(cfg, prices[..|prices| - 1], lo, hi);
      hide Advance;
      WithinStep(cfg, After(cfg, prices[..|prices| - 1]), prices[|prices| - 1], lo, hi);
    }
  }

  /** How far an average trails the price is scaled down by 1 - alpha at every step. */
  lemma LagStep(alpha: real, average: real, price: real)
    ensures price - Mixed(alpha, price, average) == (1.0 - alpha) * (price - average)
  {
  }

  lemma LagsOrdered(fast: real, slow: real, quick: real, lazy: real)
    requires 0.0 <= fast < slow <= 1.0 && 0.0 <= quick <= lazy
    ensures 0.0 <= fast * quick <= slow * lazy
    ensures quick > 0.0 ==> fast * quick < slow * lazy
  {
    assert slow * lazy - fast * quick == slow * (lazy - quick) + (slow - fast) * quick;
    ProductSign(slow, lazy - quick);
    ProductSign(slow - fast, quick);
    ProductSign(fast, quick);
  }

  lemma RisingStep(cfg: Config, st: State, last: real, price: real)
    requires Valid(cfg) && st.initialized && st.slow <= st.fast <= last <= price
    ensures var next := Advance(cfg, st, price);
      next.slow <= next.fast <= price && (last < price ==> next.slow < next.fast)
  {
    LagStep(cfg.fast, st.fast, price);
    LagStep(cfg.slow, st.slow, price);
    LagsOrdered(1.0 - cfg.fast, 1.0 - cfg.slow, price - st.fast, price - st.slow);
  }

  /** On a rising stream the slow average trails at least as far as the fast one. */
  lemma {:induction false} RisingLags(cfg: Config, prices: seq<real>)
    requires Valid(cfg) && prices != [] && Nondecreasing(prices)
    ensures var st := After(cfg, prices); var price := prices[|prices| - 1];
      && st.initialized && st.slow <= st.fast <= price
      && (|prices| > 1 && prices[|prices| - 2] < price ==> st.slow < st.fast)
  {
    var front := prices[..|prices| - 1];
    var price := prices[|prices| - 1];
    if front != [] {
      RisingLags(cfg, front);
      hide Advance;
      RisingStep(cfg, After(cfg, front), front[|front| - 1], price);
    }
  }

  lemma RisingDiff(cfg: Config, prices: seq<real>, i: nat)
    requires Valid(cfg) && i < |prices| && Nondecreasing(prices[..i + 1])
    ensures DiffAt(cfg, prices, i) >= 0.0
    ensures i > 0 && prices[i - 1] < prices[i] ==> DiffAt(cfg, prices, i) > 0.0
  {
    RisingLags(cfg, prices[..i + 1]);
  }

  /** While prices do not fall the engine never sells. */
  lemma RisingNeverSells(cfg: Config, prices: seq<real>, i: nat)
    requires Valid(cfg) && i < |prices| && Nondecreasing(prices[..i + 1])
    ensures ActionAt(cfg, prices, i) != Sell
  {
    RisingDiff(cfg, prices, i);
    SignalsAreCrossings(cfg, prices, i);
  }

  /** While prices strictly rise it buys exactly once, on the second price. */
  lemma RisingBuysOnce(cfg: Config, prices: seq<real>, i: nat)
    requires Valid(cfg) && i < |prices| && Increasing(prices[..i + 1])
    ensures ActionAt(cfg, prices, i) == if i == 1 then Buy else Hold
  {
    SignalsAreCrossings(cfg, prices, i);
    RisingDiff(cfg, prices, i);
    if i > 0 {
      assert prices[i - 1] < prices[i];
      assert Nondecreasing(prices[..i]);
      if i == 1 {
        PrevDiffIsDiff(cfg, prices, 0);
      } else {
        assert prices[..i + 1][i - 2] < prices[..i + 1][i - 1];
        RisingDiff(cfg, prices, i - 1);
      }
    }
  }

  // ------------------------------------------------------------------ repeated signals

  /** After a Buy, and as long as nothing is sold and the averages never meet, the fast one stays above. */
  lemma {:induction false} StaysAbove(cfg: Config, prices: seq<real>, i: nat, j: nat)
    requires Valid(cfg) && i <= j < |prices| && DiffAt(cfg, prices, i) > 0.0
    requires forall k :: i < k <= j ==> ActionAt(cfg, prices, k) != Sell && DiffAt(cfg, prices, k) != 0.0
    ensures DiffAt(cfg, prices, j) > 0.0
    decreases j
  {
    if i < j {
      StaysAbove(cfg, prices, i, j - 1);
      SignalsAreCrossings(cfg, prices, j);
    }
  }

  /** Two Buys with no Sell between them are separated by an evaluation at which both averages were equal. */
  lemma BuysAreSeparated(cfg: Config, prices: seq<real>, i: nat, j: nat)
    requires Valid(cfg) && i < j < |prices|
    requires ActionAt(cfg, prices, i) == Buy && ActionAt(cfg, prices, j) == Buy
    ensures exists k :: i < k < j && (ActionAt(cfg, prices, k) == Sell || DiffAt(cfg, prices, k) == 0.0)
  {
    SignalsAreCrossings(cfg, prices, i);
    SignalsAreCrossings(cfg, prices, j);
    if forall k :: i < k < j ==> ActionAt(cfg, prices, k) != Sell && DiffAt(cfg, prices, k) != 0.0 {
      StaysAbove(cfg, prices, i, j - 1);
      assert false;
    }
  }

  // ------------------------------------------------------------------- change of units

  lemma MixMapped(alpha: real, price: real, average: real, a: real, b: real)
    ensures Mixed(alpha, Affine(price, a, b), Affine(average, a, b)) == Affine(Mixed(alpha, price, average), a, b)
  {
    assert alpha * (a * price + b) == a * (alpha * price) + alpha * b;
    assert (1.0 - alpha) * (a * average + b) == a * ((1.0 - alpha) * average) + (1.0 - alpha) * b;
  }

  function MappedBy(st: State, a: real, b: real): State {
    State(Affine(st.fast, a, b), Affine(st.slow, a, b), a * st.prevDiff, st.initialized)
  }

  lemma MappedStep(cfg: Config, st: State, price: real, a: real, b: real)
    requires Valid(cfg) && st.initialized
    ensures Advance(cfg, MappedBy(st, a, b), Affine(price, a, b)) == MappedBy(Advance(cfg, st, price), a, b)
  {
    MixMapped(cfg.fast, price, st.fast, a, b);
    MixMapped(cfg.slow, price, st.slow, a, b);
    hide Mixed;
    var next := Advance(cfg, st, price);
    DifferenceMapped(next.fast, next.slow, a, b);
    hide Affine;
  }

  lemma {:induction false} MappedState(cfg: Config, prices: seq<real>, a: real, b: real)
    requires Valid(cfg) && prices != []
    ensures After(cfg, prices).initialized
    ensures After(cfg, Mapped(prices, a, b)) == MappedBy(After(cfg, prices), a, b)
  {
    var price := prices[|prices| - 1];
    var front := prices[..|prices| - 1];
    MappedPrefix(prices, a, b, |prices| - 1);
    if front != [] {
      MappedState(cfg, front, a, b);
      MappedStep(cfg, After(cfg, front), price, a, b);
      hide MappedBy;
    }
  }

  lemma DifferenceMapped(x: real, y: real, a: real, b: real)
    ensures Affine(x, a, b) - Affine(y, a, b) == a * (x - y)
  {
  }

  lemma SignOfProduct(a: real, x: real)
    ensures a > 0.0 ==> (a * x > 0.0 <==> x > 0.0) && (a * x < 0.0 <==> x < 0.0)
    ensures a < 0.0 ==> (a * x > 0.0 <==> x < 0.0) && (a * x < 0.0 <==> x > 0.0)
  {
  }

  function Swapped(action: Action): Action {
    match action
    case Buy => Sell
    case Sell => Buy
    case Hold => Hold
  }

  /** The engine does not see the unit or the offset of the prices; a mirrored stream mirrors its signals. */
  lemma UnitsDoNotMatter(cfg: Config, prices: seq<real>, a: real, b: real, i: nat)
    requires Valid(cfg) && i < |prices|
    ensures a > 0.0 ==> ActionAt(cfg, Mapped(prices, a, b), i) == ActionAt(cfg, prices, i)
    ensures a < 0.0 ==> ActionAt(cfg, Mapped(prices, a, b), i) == Swapped(ActionAt(cfg, prices, i))
  {
    var mapped := Mapped(prices, a, b);
    StepAt(cfg, prices, i);
    StepAt(cfg, mapped, i);
    MappedPrefix(prices, a, b, i + 1);
    MappedPrefix(prices, a, b, i);
    MappedState(cfg, prices[..i + 1], a, b);
    SignOfProduct(a, After(cfg, prices[..i + 1]).prevDiff);
    if i > 0 {
      MappedState(cfg, prices[..i], a, b);
      SignOfProduct(a, After(cfg, prices[..i]).prevDiff);
    }
    hide After, Advance, Affine;
  }

  /** The mirror image of RisingNeverSells. */
  lemma FallingNeverBuys(cfg: Config, prices: seq<real>, i: nat)
    requires Valid(cfg) && i < |prices| && forall k :: 0 < k <= i ==> prices[k - 1] >= prices[k]
    ensures ActionAt(cfg, prices, i) != Buy
  {
    var mapped := Mapped(prices, -1.0, 0.0);
    RisingNeverSells(cfg, mapped, i);
    UnitsDoNotMatter(cfg, prices, -1.0, 0.0, i);
  }

  // ----------------------------------------------------------------- the engine in place

  /** An emaState behind its pointer. */
  class EmaState {
    var fastEMA: real
    var slowEMA: real
    var prevDiff: real
    var initialized: bool

    ghost function Value(): State
      reads this
    {
      State(fastEMA, slowEMA, prevDiff, initialized)
    }

    constructor ()
      ensures Value() == START
    {
      fastEMA, slowEMA, prevDiff, initialized := 0.0, 0.0, 0.0, false;
    }

    constructor Copy(st: EmaState)
      ensures Value() == st.Value()
    {
      fastEMA, slowEMA, prevDiff, initialized := st.fastEMA, st.slowEMA, st.prevDiff, st.initialized;
    }

    /** The body of Evaluate once the state exists: the averages are overwritten one after the other. */
    method Feed(cfg: Config, price: real) returns (action: Action, confidence: real)
      requires Valid(cfg)
      modifies this
      ensures Value() == Advance(cfg, old(Value()), price) && action == ActionOn(cfg, old(Value()), price)
      ensures confidence == if !old(initialized) then 0.5 else Confidence(action, 0.7, Abs(prevDiff))
      ensures action != Hold ==> 0.7 < confidence <= 0.95
    {
      hide Mixed;
      if !initialized {
        fastEMA := price;
        slowEMA := price;
        prevDiff := 0.0;
        initialized := true;
        return Hold, 0.5;
      }
      fastEMA := Mixed(cfg.fast, price, fastEMA);
      slowEMA := Mixed(cfg.slow, price, slowEMA);
      var diff := fastEMA - slowEMA;
      action, confidence := Hold, 0.55;
      if prevDiff <= 0.0 && diff > 0.0 {
        action := Buy;
        confidence := Min(0.95, 0.7 + Abs(diff));
      }
      if prevDiff >= 0.0 && diff < 0.0 {
        action := Sell;
        confidence := Min(0.95, 0.7 + Abs(diff));
      }
      prevDiff := diff;
    }
  }

  /** Evaluate changes the state it is given and hands back a copy of it; an error leaves it alone. */
  method Evaluate(raw: RawConfig, price: real, state: EmaState?)
    returns (action: Action, next: EmaState?, shouldEmit: bool, failed: bool)
    modifies state
    ensures failed <==> Decoded(raw).None?
    ensures failed ==> next == state && !shouldEmit && (state != null ==> unchanged(state))
    ensures !failed ==>
      var before := if state == null then START else old(state.Value());
      && next != null && fresh(next)
      && next.Value() == Advance(Decoded(raw).value, before, price)
      && action == ActionOn(Decoded(raw).value, before, price)
      && (state != null ==> state.Value() == next.Value())
      && (shouldEmit <==> action != Hold)
  {
    var cfg := Decoded(raw);
    if cfg.None? { return Hold, state, false, true; }
    var st := state;
    if st == null {
      st := new EmaState();
    }
    var confidence;
    action, confidence := st.Feed(cfg.value, price);
    next := new EmaState.Copy(st);
    shouldEmit, failed := action != Hold, false;
  }
}
