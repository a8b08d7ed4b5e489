/** The risk service: its seen-set and decision cache, changed in place.
    Source: internal/application/risk/service.go. */
module RiskService {
  import opened Wrappers
  import R = RiskEvaluator
  import S = OrderService
  import opened Pipeline

  /** The policy of the user and strategy if there is one, else the default policy if there is one. */
  function Applicable(own: Option<R.Policy>, fallback: Option<R.Policy>): Option<R.Policy> {
    if own.Some? then own else fallback
  }

  /** What becomes of a new signal: None when there is no policy or the decision cannot be published. */
  function VerdictOf(policy: Option<R.Policy>, snapshot: R.Snapshot, quantity: real, price: real, sent: bool)
    : Option<bool>
  {
    if policy.Some? && sent then Some(R.Approves(policy.value, snapshot, quantity, price)) else None
  }

  /** The signal is approved exactly by the policy of its user and strategy, or, where there is none, by the default
      one, and a decision is published exactly when one of the two exists. */
  lemma OwnPolicyDecides(own: Option<R.Policy>, fallback: Option<R.Policy>, snapshot: R.Snapshot,
                         quantity: real, price: real, sent: bool)
    ensures var verdict := VerdictOf(Applicable(own, fallback), snapshot, quantity, price, sent);
      && (verdict.Some? <==> sent && (own.Some? || fallback.Some?))
      && (verdict == Some(true) <==>
            && sent && (own.Some? ==> R.Approves(own.value, snapshot, quantity, price))
            && (own.None? ==> fallback.Some? && R.Approves(fallback.value, snapshot, quantity, price)))
  {
  }

  class Service {
    var processedSignals: set<string>
    var decisionsCache: map<string, S.Decision>
    /** The decisions that reached their topic, in order. */
    var published: seq<S.Decision>

    /** The part of the pipeline's world that the service holds. */
    ghost function View(): World
      reads this
    {
      Pipeline.INITIAL.(riskSeen := processedSignals, decisions := published)
    }

    constructor ()
      ensures View() == Pipeline.INITIAL && decisionsCache == map[]
    {
      processedSignals, decisionsCache, published := {}, map[], [];
    }

    /** `snapshot` is the portfolio snapshot of the cache, `price` the signal's confidence. The signal is marked before
        anything can fail, and a decision that cannot be published is cached all the same. */
    method ProcessStrategySignal(signal: Signal, own: Option<R.Policy>, fallback: Option<R.Policy>,
                                 snapshot: R.Snapshot, price: real, decisionID: string, sent: bool)
      modifies this
      ensures var policy := Applicable(own, fallback);
        View() == Assessed(old(View()), signal, decisionID, VerdictOf(policy, snapshot, signal.quantity, price, sent))
      ensures var policy := Applicable(own, fallback);
        decisionsCache
        == if signal.id in old(processedSignals) || policy.None? then old(decisionsCache)
           else old(decisionsCache)[decisionID :=
             DecisionOn(signal, decisionID, R.Approves(policy.value, snapshot, signal.quantity, price))]
    {
      if signal.id in processedSignals { return; }
      processedSignals := processedSignals + {signal.id};
      var policy := own;
      if policy.None? {
        policy := fallback;
        if policy.None? { return; }
      }
      var decision := DecisionOn(signal, decisionID, R.Approves(policy.value, snapshot, signal.quantity, price));
      decisionsCache := decisionsCache[decisionID := decision];
      if !sent { return; }
      published := published + [decision];
    }
  }
}
