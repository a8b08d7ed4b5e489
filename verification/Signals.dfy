/** What the strategy engines read and emit: price streams and signals. */
module Signals {
  datatype Action = Hold | Buy | Sell

  function Abs(x: real): (r: real)
    ensures r >= 0.0
  {
    if x < 0.0 then -x else x
  }

  function Min(x: real, y: real): real {
    if x <= y then x else y
  }

  function Max(x: real, y: real): real {
    if x >= y then x else y
  }

  /** A held position has confidence 0.55; a signal grows with its strength up to 0.95. */
  function Confidence(action: Action, base: real, strength: real): real {
    if action == Hold then 0.55 else Min(0.95, base + strength)
  }

  predicate Nondecreasing(prices: seq<real>) {
    forall i :: 0 < i < |prices| ==> prices[i - 1] <= prices[i]
  }

  predicate Increasing(prices: seq<real>) {
    forall i :: 0 < i < |prices| ==> prices[i - 1] < prices[i]
  }

  function Affine(p: real, a: real, b: real): real {
    a * p + b
  }

  /** The whole stream mapped by p -> a x p + b. */
  function Mapped(prices: seq<real>, a: real, b: real): (mapped: seq<real>)
    ensures |mapped| == |prices|
  {
    seq(|prices|, i requires 0 <= i < |prices| => Affine(prices[i], a, b))
  }

  lemma MappedPrefix(prices: seq<real>, a: real, b: real, n: nat)
    requires n <= |prices|
    ensures Mapped(prices, a, b)[..n] == Mapped(prices[..n], a, b)
  {
    hide Affine;
  }
}
