/** The maximum drawdown of a list of balances: a one-pass form of a pairwise definition.
    Source: internal/application/portfolio/calculator.go. */
module Drawdown {
  function Drop(high: real, low: real): real
    requires high != 0.0
  {
    (high - low) / high
  }

  /** The largest of the balances up to and including that one. */
  function Peak(balances: seq<real>, j: nat): (peak: real)
    requires j < |balances|
    ensures peak >= balances[j] && (balances[0] > 0.0 ==> peak > 0.0)
  {
    if j == 0 then balances[0]
    else if balances[j] > Peak(balances, j - 1) then balances[j] else Peak(balances, j - 1)
  }

  lemma {:induction false} PeakIsReached(balances: seq<real>, j: nat) returns (i: nat)
    requires j < |balances|
    ensures i <= j && balances[i] == Peak(balances, j)
  {
    i := j;
    if j > 0 && balances[j] <= Peak(balances, j - 1) {
      i := PeakIsReached(balances, j - 1);
    }
  }

  lemma {:induction false} PeakIsHighest(balances: seq<real>, i: nat, j: nat)
    requires i <= j < |balances|
    ensures balances[i] <= Peak(balances, j)
  {
    if i < j { PeakIsHighest(balances, i, j - 1); }
  }

  /** The code never divides by zero on such a list. */
  predicate Defined(balances: seq<real>) {
    |balances| > 0 && forall j :: 0 <= j < |balances| ==> Peak(balances, j) != 0.0
  }

  function DropFromPeak(balances: seq<real>, j: nat): real
    requires j < |balances| && Defined(balances)
  {
    Drop(Peak(balances, j), balances[j])
  }

  /** The deepest fall below the running peak. */
  predicate IsPeakDrawdown(balances: seq<real>, result: real)
    requires Defined(balances)
  {
    && (forall j :: 0 <= j < |balances| ==> DropFromPeak(balances, j) <= result)
    && (exists j :: 0 <= j < |balances| && DropFromPeak(balances, j) == result)
  }

  /** No later balance lies further below an earlier one, in proportion, and one pair attains it. */
  predicate IsMaxDrawdown(balances: seq<real>, result: real) {
    && (forall i, j :: 0 <= i <= j < |balances| && balances[i] > 0.0 ==> Drop(balances[i], balances[j]) <= result)
    && (exists i, j :: 0 <= i <= j < |balances| && balances[i] > 0.0 && Drop(balances[i], balances[j]) == result)
  }

  /** CalculateMaxDrawdown, for all lists of balances on which it does not divide by zero. */
  method CalculateMaxDrawdown(balances: seq<real>) returns (maxDrawdown: real)
    requires balances != [] ==> Defined(balances)
    ensures balances == [] ==> maxDrawdown == 0.0
    ensures balances != [] ==> IsPeakDrawdown(balances, maxDrawdown)
    ensures balances != [] && balances[0] > 0.0 && (forall k :: 0 <= k < |balances| ==> balances[k] >= 0.0) ==>
      IsMaxDrawdown(balances, maxDrawdown)
  {
    if |balances| == 0 { return 0.0; }
    var maxBalance := balances[0];
    maxDrawdown := 0.0;
    ghost var best := 0;
    assert DropFromPeak(balances, 0) == 0.0;
    hide Drop, IsMaxDrawdown;
    for n := 0 to |balances|
      invariant maxBalance == if n == 0 then balances[0] else Peak(balances, n - 1)
      invariant forall j :: 0 <= j < n ==> DropFromPeak(balances, j) <= maxDrawdown
      invariant 0 <= best < |balances| && DropFromPeak(balances, best) == maxDrawdown
    {
      var balance := balances[n];
      if balance > maxBalance {
        maxBalance := balance;
      }
      assert maxBalance == Peak(balances, n);
      var drawdown := Drop(maxBalance, balance);
      if drawdown > maxDrawdown {
        maxDrawdown := drawdown;
        best := n;
      }
    }
    if balances[0] > 0.0 && forall k :: 0 <= k < |balances| ==> balances[k] >= 0.0 {
      PeaksSuffice(balances, maxDrawdown);
    }
  }

  lemma DropIsShare(high: real, low: real)
    requires high > 0.0
    ensures Drop(high, low) * high == high - low
  {
  }

  /** What is left of a balance, as a share of it. */
  function Share(high: real, low: real): real
    requires high != 0.0
  {
    low / high
  }

  lemma ShareTimes(high: real, low: real)
    requires high > 0.0
    ensures Share(high, low) * high == low
  {
  }

  lemma ProductSign(x: real, z: real)
    requires z > 0.0
    ensures x * z >= 0.0 <==> x >= 0.0
  {
  }

  lemma Complement(drop: real, share: real, high: real, low: real)
    requires high > 0.0 && drop * high == high - low && share * high == low
    ensures drop == 1.0 - share && (share >= 0.0 <==> low >= 0.0)
  {
    var gap := drop + share - 1.0;
    assert gap * high == 0.0 && -gap * high == 0.0;
    ProductSign(gap, high);
    ProductSign(-gap, high);
    ProductSign(share, high);
  }

  lemma DropAndShare(high: real, low: real)
    requires high > 0.0
    ensures Drop(high, low) == 1.0 - Share(high, low)
    ensures Share(high, low) * high == low
    ensures Share(high, low) >= 0.0 <==> low >= 0.0
  {
    DropIsShare(high, low);
    ShareTimes(high, low);
    hide Drop, Share;
    Complement(Drop(high, low), Share(high, low), high, low);
  }

  lemma SharesOrdered(share: real, other: real, high: real, higher: real)
    requires 0.0 < high <= higher && share * high == other * higher
    ensures share >= 0.0 ==> other <= share
    ensures share < 0.0 ==> share <= other
  {
    assert other * higher - share * higher == share * high - share * higher;
    if share >= 0.0 {
      assert share * high <= share * higher;
    } else {
      assert share * higher <= share * high;
    }
  }

  /** From a higher balance down to the same one is a deeper fall, as long as that one is not negative; down to a
      negative balance it is the other way round. */
  lemma DeeperFromHigher(low: real, high: real, higher: real)
    requires 0.0 < high <= higher
    ensures low >= 0.0 ==> Drop(high, low) <= Drop(higher, low)
    ensures low < 0.0 ==> Drop(higher, low) <= Drop(high, low)
  {
    DropAndShare(high, low);
    DropAndShare(higher, low);
    SharesOrdered(Share(high, low), Share(higher, low), high, higher);
    hide Drop, Share;
  }

  /** The smallest positive balance up to and including that one. */
  function Lowest(balances: seq<real>, j: nat): (low: real)
    requires j < |balances| && balances[0] > 0.0
    ensures low > 0.0
  {
    if j == 0 then balances[0]
    else if 0.0 < balances[j] < Lowest(balances, j - 1) then balances[j] else Lowest(balances, j - 1)
  }

  lemma {:induction false} LowestIsReached(balances: seq<real>, j: nat) returns (i: nat)
    requires j < |balances| && balances[0] > 0.0
    ensures i <= j && balances[i] == Lowest(balances, j)
  {
    i := j;
    if j > 0 && !(0.0 < balances[j] < Lowest(balances, j - 1)) {
      i := LowestIsReached(balances, j - 1);
    }
  }

  lemma {:induction false} LowestIsLowest(balances: seq<real>, i: nat, j: nat)
    requires i <= j < |balances| && balances[0] > 0.0 && balances[i] > 0.0
    ensures Lowest(balances, j) <= balances[i]
  {
    if i < j { LowestIsLowest(balances, i, j - 1); }
  }

  /** Every fall from the smallest positive balance so far to a negative one is made up for by one from a peak. */
  predicate NegativesAreCovered(balances: seq<real>)
    requires Defined(balances) && balances[0] > 0.0
  {
    forall j :: 0 <= j < |balances| && balances[j] < 0.0 ==>
      exists k :: 0 <= k < |balances| && Drop(Lowest(balances, j), balances[j]) <= DropFromPeak(balances, k)
  }

  /** Measuring from the running peak is measuring from every earlier positive balance exactly when the negative
      balances are covered. */
  lemma PeaksSufficeIff(balances: seq<real>, result: real)
    requires Defined(balances) && balances[0] > 0.0 && IsPeakDrawdown(balances, result)
    ensures IsMaxDrawdown(balances, result) <==> NegativesAreCovered(balances)
  {
    var best :| 0 <= best < |balances| && DropFromPeak(balances, best) == result;
    if IsMaxDrawdown(balances, result) {
      forall j | 0 <= j < |balances| && balances[j] < 0.0
        ensures Drop(Lowest(balances, j), balances[j]) <= DropFromPeak(balances, best)
      {
        var i := LowestIsReached(balances, j);
        assert Drop(balances[i], balances[j]) <= result;
      }
    }
    if NegativesAreCovered(balances) {
      forall i, j | 0 <= i <= j < |balances| && balances[i] > 0.0
        ensures Drop(balances[i], balances[j]) <= result
      {
        PairIsCovered(balances, result, i, j);
      }
      var i := PeakIsReached(balances, best);
      assert Drop(balances[i], balances[best]) == result;
    }
  }

  lemma PairIsCovered(balances: seq<real>, result: real, i: nat, j: nat)
    requires Defined(balances) && balances[0] > 0.0 && IsPeakDrawdown(balances, result)
    requires i <= j < |balances| && balances[i] > 0.0
    requires balances[j] < 0.0 ==>
      exists k :: 0 <= k < |balances| && Drop(Lowest(balances, j), balances[j]) <= DropFromPeak(balances, k)
    ensures Drop(balances[i], balances[j]) <= result
  {
    if balances[j] < 0.0 {
      LowestIsLowest(balances, i, j);
      DeeperFromHigher(balances[j], Lowest(balances, j), balances[i]);
    } else {
      PeakIsHighest(balances, i, j);
      DeeperFromHigher(balances[j], balances[i], Peak(balances, j));
      assert DropFromPeak(balances, j) <= result;
    }
  }

  lemma PeaksSuffice(balances: seq<real>, result: real)
    requires |balances| > 0 && balances[0] > 0.0 && forall k :: 0 <= k < |balances| ==> balances[k] >= 0.0
    requires IsPeakDrawdown(balances, result)
    ensures IsMaxDrawdown(balances, result)
  {
    PeaksSufficeIff(balances, result);
    hide IsMaxDrawdown, IsPeakDrawdown;
  }

  /** One list on which the two differ: 3 by pairs, 2 by peaks. */
  lemma NegativeBalancesCanDiffer()
    ensures IsPeakDrawdown([1.0, 2.0, -2.0], 2.0) && !IsMaxDrawdown([1.0, 2.0, -2.0], 2.0)
  {
    var balances := [1.0, 2.0, -2.0];
    assert Peak(balances, 0) == 1.0 && Peak(balances, 1) == 2.0 && Peak(balances, 2) == 2.0;
    assert DropFromPeak(balances, 0) == 0.0 && DropFromPeak(balances, 1) == 0.0 && DropFromPeak(balances, 2) == 2.0;
    assert Drop(balances[0], balances[2]) == 3.0;
    hide Drop, DropFromPeak, Peak;
  }

  lemma DropRange(high: real, low: real)
    requires high > 0.0 && low >= 0.0
    ensures Drop(high, low) <= 1.0 && (Drop(high, low) == 1.0 <==> low == 0.0)
    ensures Drop(high, low) >= 0.0 <==> low <= high
    ensures Drop(high, low) == 0.0 <==> low == high
  {
    DropIsShare(high, low);
  }

  /** The result lies in [0, 1]; it is 1 exactly when some balance is zero, and 0 exactly when none falls
      below the running peak. */
  lemma DrawdownRange(balances: seq<real>, result: real)
    requires |balances| > 0 && balances[0] > 0.0 && forall k :: 0 <= k < |balances| ==> balances[k] >= 0.0
    requires IsPeakDrawdown(balances, result)
    ensures 0.0 <= result <= 1.0
    ensures result == 1.0 <==> exists j :: 0 <= j < |balances| && balances[j] == 0.0
    ensures result == 0.0 <==> forall j :: 0 <= j < |balances| ==> balances[j] == Peak(balances, j)
  {
    forall j | 0 <= j < |balances|
      ensures 0.0 <= DropFromPeak(balances, j) <= 1.0
      ensures DropFromPeak(balances, j) == 1.0 <==> balances[j] == 0.0
      ensures DropFromPeak(balances, j) == 0.0 <==> balances[j] == Peak(balances, j)
    {
      DropRange(Peak(balances, j), balances[j]);
    }
    hide Drop, DropFromPeak, Peak;
  }
}
