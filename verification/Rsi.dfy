/** The RSI engine: smoothed gains and losses of a price stream against two thresholds.
    Source: internal/application/strategy/rsi_strategy.go. */
module Rsi {
  import opened Wrappers
  import opened Signals

  /** The stored configuration: nothing, bytes that do not decode, or a JSON object. */
  datatype RawConfig = Empty | Malformed | Json(period: int, overbought: real, oversold: real)

  datatype Config = Config(period: int, overbought: real, oversold: real)

  /** Missing settings get their defaults; a period that is not positive does as well. */
  function Decoded(raw: RawConfig): (cfg: Option<Config>)
    ensures cfg.Some? ==> cfg.value.period > 0
  {
    match raw
    case Empty => Some(Config(14, 70.0, 30.0))
    case Malformed => None
    case Json(period, overbought, oversold) =>
      Some(Config(if period <= 0 then 14 else period,
                  if overbought == 0.0 then 70.0 else overbought,
                  if oversold == 0.0 then 30.0 else oversold))
  }

  /** A missing setting is 14, 70 or 30, and so is a period that is not positive. */
  lemma MissingSettingsHaveDefaults(period: int, overbought: real, oversold: real)
    ensures Decoded(Empty) == Decoded(Json(14, 70.0, 30.0))
    ensures period <= 0 ==> Decoded(Json(period, overbought, oversold)) == Decoded(Json(14, overbought, oversold))
    ensures Decoded(Json(period, 0.0, oversold)) == Decoded(Json(period, 70.0, oversold))
    ensures Decoded(Json(period, overbought, 0.0)) == Decoded(Json(period, overbought, 30.0))
  {
  }

  datatype State = State(lastPrice: real, avgGain: real, avgLoss: real, count: nat)

  function Smoothed(average: real, value: real, period: int): real
    requires period > 0
  {
    (average * (period as real - 1.0) + value) / period as real
  }

  /** The index is 50 when nothing was lost, however much was gained. */
  function Index(avgGain: real, avgLoss: real): real
    requires avgGain >= 0.0
  {
    if avgLoss > 0.0 then 100.0 - 100.0 / (1.0 + Ratio(avgGain, avgLoss)) else 50.0
  }

  function Ratio(x: real, y: real): (q: real)
    requires x >= 0.0 && y > 0.0
    ensures q >= 0.0
  {
    x / y
  }

  function Gain(st: State, price: real): (gain: real)
    ensures gain >= 0.0
  {
    Max(price - st.lastPrice, 0.0)
  }

  function Loss(st: State, price: real): (loss: real)
    ensures loss >= 0.0
  {
    Max(-(price - st.lastPrice), 0.0)
  }

  function Advance(cfg: Config, st: Option<State>, price: real): State
    requires cfg.period > 0
  {
    match st
    case None => State(price, 0.0, 0.0, 0)
    case Some(s) =>
      if s.count == 0 then State(price, Gain(s, price), Loss(s, price), 1)
      else State(price, Smoothed(s.avgGain, Gain(s, price), cfg.period),
                 Smoothed(s.avgLoss, Loss(s, price), cfg.period), s.count + 1)
  }

  predicate Sound(st: State) {
    st.avgGain >= 0.0 && st.avgLoss >= 0.0
  }

  type SoundState = st: State | Sound(st) witness State(0.0, 0.0, 0.0, 0)

  lemma SmoothedKeepsSign(average: real, value: real, period: int)
    requires period > 0 && average >= 0.0 && value >= 0.0
    ensures Smoothed(average, value, period) >= 0.0
    ensures value > 0.0 ==> Smoothed(average, value, period) > 0.0
  {
    var p := period as real;
    assert average * (p - 1.0) >= 0.0;
  }

  lemma SmoothedZero(period: int)
    requires period > 0
    ensures Smoothed(0.0, 0.0, period) == 0.0
  {
  }

  lemma AdvanceKeepsSound(cfg: Config, st: Option<State>, price: real)
    requires cfg.period > 0 && (st.Some? ==> Sound(st.value))
    ensures Sound(Advance(cfg, st, price))
  {
    if st.Some? && st.value.count > 0 {
      SmoothedKeepsSign(st.value.avgGain, Gain(st.value, price), cfg.period);
      SmoothedKeepsSign(st.value.avgLoss, Loss(st.value, price), cfg.period);
    }
  }

  /** A low index buys and a high one sells; where the thresholds overlap the sale wins. */
  function Verdict(cfg: Config, index: real): Action {
    if index >= cfg.overbought then Sell else if index <= cfg.oversold then Buy else Hold
  }

  function ActionOn(cfg: Config, st: Option<State>, price: real): Action
    requires cfg.period > 0 && (st.Some? ==> Sound(st.value))
  {
    AdvanceKeepsSound(cfg, st, price);
    var next := Advance(cfg, st, price);
    if next.count < 2 then Hold else Verdict(cfg, Index(next.avgGain, next.avgLoss))
  }

  /** The state after a stream of prices. */
  function After(cfg: Config, prices: seq<real>): (st: Option<State>)
    requires cfg.period > 0
    ensures st.Some? <==> prices != []
    ensures st.Some? ==> Sound(st.value) && st.value.count == |prices| - 1 && st.value.lastPrice == prices[|prices| - 1]
  {
    if prices == [] then None
    else
      var before := After(cfg, prices[..|prices| - 1]);
      AdvanceKeepsSound(cfg, before, prices[|prices| - 1]);
      Some(Advance(cfg, before, prices[|prices| - 1]))
  }

  function ActionAt(cfg: Config, prices: seq<real>, i: nat): Action
    requires cfg.period > 0 && i < |prices|
  {
    ActionOn(cfg, After(cfg, prices[..i]), prices[i])
  }

  function IndexOf(st: State): real
    requires Sound(st)
  {
    Index(st.avgGain, st.avgLoss)
  }

  /** The index once the price with that position has been seen. */
  function IndexAt(cfg: Config, prices: seq<real>, i: nat): real
    requires cfg.period > 0 && i < |prices|
  {
    IndexOf(After(cfg, prices[..i + 1]).value)
  }

  lemma StepAt(cfg: Config, prices: seq<real>, i: nat)
    requires cfg.period > 0 && i < |prices|
    ensures After(cfg, prices[..i + 1]) == Some(Advance(cfg, After(cfg, prices[..i]), prices[i]))
    ensures ActionAt(cfg, prices, i) == if i < 2 then Hold else Verdict(cfg, IndexAt(cfg, prices, i))
  {
    assert prices[..i + 1][..i] == prices[..i];
  }

  lemma QuotientRange(d: real)
    requires d >= 1.0
    ensures 0.0 < 100.0 / d <= 100.0
  {
  }

  lemma IndexRange(avgGain: real, avgLoss: real)
    requires avgGain >= 0.0
    ensures 0.0 <= Index(avgGain, avgLoss) < 100.0
  {
    if avgLoss > 0.0 {
      QuotientRange(1.0 + Ratio(avgGain, avgLoss));
    }
  }

  /** The index lies in [0, 100), so a threshold of 100 never sells and one below zero never buys. */
  lemma IndexWithinRange(cfg: Config, prices: seq<real>, i: nat)
    requires cfg.period > 0 && i < |prices|
    ensures 0.0 <= IndexAt(cfg, prices, i) < 100.0
    ensures cfg.overbought >= 100.0 ==> ActionAt(cfg, prices, i) != Sell
    ensures cfg.oversold < 0.0 ==> ActionAt(cfg, prices, i) != Buy
  {
    var st := After(cfg, prices[..i + 1]).value;
    IndexRange(st.avgGain, st.avgLoss);
    StepAt(cfg, prices, i);
  }

  lemma NonzeroProduct(x: real, y: real)
    requires x != 0.0 && y != 0.0
    ensures x * y != 0.0
  {
  }

  /** The period is how slowly an average follows: each new value moves it by one period-th of its distance. */
  lemma SmoothedMoves(average: real, value: real, period: int)
    requires period > 0
    ensures (Smoothed(average, value, period) - average) * period as real == value - average
    ensures Smoothed(average, value, period) == value <==> period == 1 || average == value
  {
    var p := period as real;
    var next := Smoothed(average, value, period);
    assert next * p == average * (p - 1.0) + value;
    assert (next - value) * p == (average - value) * (p - 1.0);
    assert p == 1.0 <==> period == 1;
    if period != 1 && average != value {
      NonzeroProduct(average - value, p - 1.0);
    }
  }

  /** Once something was lost the index is the gains' share of all moves, in per cent. */
  lemma IndexIsShare(avgGain: real, avgLoss: real)
    requires avgGain >= 0.0 && avgLoss > 0.0
    ensures Index(avgGain, avgLoss) * (avgGain + avgLoss) == 100.0 * avgGain
  {
    var q := Ratio(avgGain, avgLoss);
    var x := 100.0 / (1.0 + q);
    assert q * avgLoss == avgGain && x * (1.0 + q) == 100.0;
    assert x * (avgGain + avgLoss) == x * ((1.0 + q) * avgLoss) == 100.0 * avgLoss;
  }

  // ---------------------------------------------------------------- monotone streams

  lemma {:induction false} RisingLosesNothing(cfg: Config, prices: seq<real>)
    requires cfg.period > 0 && prices != [] && Nondecreasing(prices)
    ensures After(cfg, prices).value.avgLoss == 0.0
  {
    var front := prices[..|prices| - 1];
    if front != [] {
      RisingLosesNothing(cfg, front);
      SmoothedZero(cfg.period);
      hide Smoothed;
    }
  }

  /** On a stream that never falls the index is 50 for ever, however steep the rise: the engine sells exactly when its
      upper threshold is at most 50, buys when only the lower one reaches 50, and holds when 50 lies between. */
  lemma RisingVerdict(cfg: Config, prices: seq<real>, i: nat)
    requires cfg.period > 0 && 2 <= i < |prices| && Nondecreasing(prices[..i + 1])
    ensures IndexAt(cfg, prices, i) == 50.0
    ensures ActionAt(cfg, prices, i) == Sell <==> cfg.overbought <= 50.0
    ensures ActionAt(cfg, prices, i) == Buy <==> cfg.oversold >= 50.0 && cfg.overbought > 50.0
    ensures ActionAt(cfg, prices, i) == Hold <==> cfg.oversold < 50.0 < cfg.overbought
  {
    RisingLosesNothing(cfg, prices[..i + 1]);
    StepAt(cfg, prices, i);
  }

  lemma {:induction false} FallingGainsNothing(cfg: Config, prices: seq<real>)
    requires cfg.period > 0 && prices != [] && forall k :: 0 < k < |prices| ==> prices[k - 1] > prices[k]
    ensures After(cfg, prices).value.avgGain == 0.0
    ensures |prices| > 1 ==> After(cfg, prices).value.avgLoss > 0.0
  {
    var front := prices[..|prices| - 1];
    if front != [] {
      FallingGainsNothing(cfg, front);
      var st, price := After(cfg, front).value, prices[|prices| - 1];
      assert Loss(st, price) > 0.0;
      SmoothedZero(cfg.period);
      SmoothedKeepsSign(st.avgLoss, Loss(st, price), cfg.period);
      hide Smoothed;
    }
  }

  /** While prices strictly fall the index is 0 from the third one on: the engine sells exactly when its upper threshold
      is at most 0, buys when it is not and the lower one is at least 0, and holds otherwise. */
  lemma FallingVerdict(cfg: Config, prices: seq<real>, i: nat)
    requires cfg.period > 0 && 2 <= i < |prices|
    requires forall k :: 0 < k <= i ==> prices[k - 1] > prices[k]
    ensures IndexAt(cfg, prices, i) == 0.0
    ensures ActionAt(cfg, prices, i) == Sell <==> cfg.overbought <= 0.0
    ensures ActionAt(cfg, prices, i) == Buy <==> cfg.oversold >= 0.0 && cfg.overbought > 0.0
    ensures ActionAt(cfg, prices, i) == Hold <==> cfg.oversold < 0.0 < cfg.overbought
  {
    FallingGainsNothing(cfg, prices[..i + 1]);
    StepAt(cfg, prices, i);
  }

  // ------------------------------------------------------------------- change of units

  function Scaled(st: State, a: real, b: real): State {
    State(Affine(st.lastPrice, a, b), a * st.avgGain, a * st.avgLoss, st.count)
  }

  lemma SmoothedScaled(average: real, value: real, period: int, a: real)
    requires period > 0
    ensures Smoothed(a * average, a * value, period) == a * Smoothed(average, value, period)
  {
    var p := period as real;
    assert a * average * (p - 1.0) + a * value == a * (average * (p - 1.0) + value);
  }

  lemma MovesScaled(st: State, price: real, a: real, b: real)
    requires a > 0.0
    ensures Gain(Scaled(st, a, b), Affine(price, a, b)) == a * Gain(st, price)
    ensures Loss(Scaled(st, a, b), Affine(price, a, b)) == a * Loss(st, price)
  {
    var d := price - st.lastPrice;
    assert Affine(price, a, b) - Affine(st.lastPrice, a, b) == a * d;
    assert a * d >= 0.0 <==> d >= 0.0;
  }

  lemma RatioScaled(x: real, y: real, a: real)
    requires a > 0.0 && x >= 0.0 && y > 0.0 && a * x >= 0.0 && a * y > 0.0
    ensures Ratio(a * x, a * y) == Ratio(x, y)
  {
    var q := Ratio(x, y);
    assert x == q * y;
    assert a * x == q * (a * y);
  }

  lemma IndexScaled(st: State, a: real, b: real)
    requires a > 0.0 && Sound(st)
    ensures Sound(Scaled(st, a, b)) && IndexOf(Scaled(st, a, b)) == IndexOf(st)
  {
    assert a * st.avgGain >= 0.0;
    assert a * st.avgLoss > 0.0 <==> st.avgLoss > 0.0;
    if st.avgLoss > 0.0 {
      RatioScaled(st.avgGain, st.avgLoss, a);
    }
  }

  lemma ScaledStep(cfg: Config, st: State, price: real, a: real, b: real)
    requires cfg.period > 0 && a > 0.0
    ensures Advance(cfg, Some(Scaled(st, a, b)), Affine(price, a, b)) == Scaled(Advance(cfg, Some(st), price), a, b)
  {
    MovesScaled(st, price, a, b);
    SmoothedScaled(st.avgGain, Gain(st, price), cfg.period, a);
    SmoothedScaled(st.avgLoss, Loss(st, price), cfg.period, a);
    hide Smoothed, Gain, Loss, Affine;
  }

  lemma {:induction false} ScaledState(cfg: Config, prices: seq<real>, a: real, b: real)
    requires cfg.period > 0 && a > 0.0 && prices != []
    ensures After(cfg, Mapped(prices, a, b)) == Some(Scaled(After(cfg, prices).value, a, b))
  {
    var front := prices[..|prices| - 1];
    MappedPrefix(prices, a, b, |prices| - 1);
    if front != [] {
      ScaledState(cfg, front, a, b);
      ScaledStep(cfg, After(cfg, front).value, prices[|prices| - 1], a, b);
      hide Scaled, Advance;
    }
  }

  lemma IndexAtScaled(cfg: Config, prices: seq<real>, a: real, b: real, i: nat)
    requires cfg.period > 0 && a > 0.0 && i < |prices|
    ensures IndexAt(cfg, Mapped(prices, a, b), i) == IndexAt(cfg, prices, i)
  {
    MappedPrefix(prices, a, b, i + 1);
    ScaledState(cfg, prices[..i + 1], a, b);
    IndexScaled(After(cfg, prices[..i + 1]).value, a, b);
    hide IndexOf, After, Scaled;
  }

  /** The engine does not see the unit or the offset of the prices. */
  lemma UnitsDoNotMatter(cfg: Config, prices: seq<real>, a: real, b: real, i: nat)
    requires cfg.period > 0 && a > 0.0 && i < |prices|
    ensures IndexAt(cfg, Mapped(prices, a, b), i) == IndexAt(cfg, prices, i)
    ensures ActionAt(cfg, Mapped(prices, a, b), i) == ActionAt(cfg, prices, i)
  {
    hide *;
    assert |Mapped(prices, a, b)| == |prices|;
    StepAt(cfg, prices, i);
    StepAt(cfg, Mapped(prices, a, b), i);
    IndexAtScaled(cfg, prices, a, b, i);
  }

  // ----------------------------------------------------------------- the engine in place

  /** An rsiState behind its pointer. */
  class RsiState {
    var lastPrice: real
    var avgGain: real
    var avgLoss: real
    var count: nat

    ghost function Value(): State
      reads this
    {
      State(lastPrice, avgGain, avgLoss, count)
    }

    constructor (price: real)
      ensures Value() == State(price, 0.0, 0.0, 0)
    {
      lastPrice, avgGain, avgLoss, count := price, 0.0, 0.0, 0;
    }

    /** The body of Evaluate once the state exists. */
    method Feed(cfg: Config, price: real) returns (action: Action, confidence: real)
      requires cfg.period > 0 && Sound(Value())
      modifies this
      ensures Value() == Advance(cfg, Some(old(Value())), price) && Sound(Value())
      ensures action == ActionOn(cfg, Some(old(Value())), price)
      ensures confidence
              == if old(count) == 0 then 0.5
                 else var index := Index(avgGain, avgLoss);
                   var beyond := if action == Sell then index - cfg.overbought else cfg.oversold - index;
                   Confidence(action, 0.6, beyond / 100.0)
      ensures action != Hold ==> 0.6 <= confidence <= 0.95
    {
      AdvanceKeepsSound(cfg, Some(Value()), price);
      hide Smoothed, Index;
      var delta := price - lastPrice;
      var gain := Max(delta, 0.0);
      var loss := Max(-delta, 0.0);
      lastPrice := price;
      count := count + 1;
      if count == 1 {
        avgGain := gain;
        avgLoss := loss;
        return Hold, 0.5;
      }
      avgGain := Smoothed(avgGain, gain, cfg.period);
      avgLoss := Smoothed(avgLoss, loss, cfg.period);
      var rsi := Index(avgGain, avgLoss);
      action, confidence := Hold, 0.55;
      if rsi <= cfg.oversold {
        action := Buy;
        confidence := Min(0.95, 0.6 + (cfg.oversold - rsi) / 100.0);
      }
      if rsi >= cfg.overbought {
        action := Sell;
        confidence := Min(0.95, 0.6 + (rsi - cfg.overbought) / 100.0);
      }
    }
  }

  /** Unlike the EMA engine, Evaluate hands back the very state that it was given and changed. */
  method Evaluate(raw: RawConfig, price: real, state: RsiState?)
    returns (action: Action, next: RsiState?, shouldEmit: bool, failed: bool)
    requires state != null ==> Sound(state.Value())
    modifies state
    ensures failed <==> Decoded(raw).None?
    ensures failed ==> next == state && !shouldEmit && (state != null ==> unchanged(state))
    ensures !failed ==>
      var before := if state == null then None else Some(old(state.Value()));
      && next != null && (if state == null then fresh(next) else next == state)
      && next.Value() == Advance(Decoded(raw).value, before, price) && Sound(next.Value())
      && action == ActionOn(Decoded(raw).value, before, price)
      && (shouldEmit <==> action != Hold)
  {
    var cfg := Decoded(raw);
    if cfg.None? { return Hold, state, false, true; }
    if state == null {
      next := new RsiState(price);
      return Hold, next, false, false;
    }
    var confidence;
    action, confidence := state.Feed(cfg.value, price);
    next, shouldEmit, failed := state, action != Hold, false;
  }
}
