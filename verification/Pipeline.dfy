/** From signal to decision to order to execution to portfolio: five services that only exchange messages,
    each of which may be delivered any number of times and in any order. The execution stage is the state
    machine of ExecutionLifecycle and the portfolio stage the ledger of PortfolioLedger.
    Source: internal/application/{risk,order,execution,portfolio}/service.go. */
module Pipeline {
  import opened Wrappers
  import O = OrderLifecycle
  import S = OrderService
  import E = ExecutionLifecycle
  import X = ExecutionTheorems
  import P = PortfolioLedger
  import T = PortfolioTheorems
  import R = RiskEvaluator
  import Sequences

  datatype Signal = Signal(
    id: string, userID: string, strategyID: string, symbol: string, side: string, quantity: real)

  /** `signals`, `decisions`, `orders` and `exec.filled` are what the topics hold; `made` are all orders,
      also those whose publication failed; `portfolio` are the events that the portfolio service handled. */
  datatype World = World(
    signals: set<Signal>,
    riskSeen: set<string>, decisions: seq<S.Decision>,
    orderSeen: set<string>, made: seq<O.Order>, orders: seq<O.Order>,
    exec: E.State,
    portfolio: seq<P.Event>)

  const INITIAL := World({}, {}, [], {}, [], [], E.INITIAL, [])

  datatype Step =
    | Emit(signal: Signal)
    /** processStrategySignal; `verdict` is None when no policy is found or the publication fails. */
    | Assess(signal: Signal, decisionID: string, verdict: Option<bool>)
    /** The consumer of decisions; `sent` tells whether order.created could be published. */
    | Order(decision: S.Decision, id: string, clientOrderID: string, correlationID: string, sent: bool)
    | Execute(step: E.Step)
    | Book(execution: E.Execution)
    | Reprice(user: string, prices: map<string, real>)

  function SideText(side: O.Side): string {
    if side == O.Buy then "BUY" else "SELL"
  }

  /** The order.created message as the execution service reads it. */
  function MessageOf(o: O.Order): E.OrderEvent {
    E.OrderEvent(o.id, o.clientOrderID, o.userID, o.symbol, SideText(o.side), o.quantity)
  }

  /** The execution.filled message as the portfolio service reads it. */
  function FillOf(e: E.Execution): P.Fill {
    P.Fill(e.id, e.user, e.symbol, e.side, e.executed, e.average, e.fees)
  }

  function DecisionOn(s: Signal, decisionID: string, approved: bool): S.Decision {
    S.Decision(decisionID, s.id, s.userID, s.strategyID, s.symbol, s.side, s.quantity, approved)
  }

  /** A message can be handled once it has been published, and again ever after. */
  ghost predicate Enabled(w: World, step: Step) {
    match step
    case Emit(_) => true
    case Assess(signal, _, _) => signal in w.signals
    case Order(decision, _, _, _, _) => decision in w.decisions
    case Execute(step) =>
      && E.Enabled(w.exec, step)
      && (step.Deliver? ==> exists o :: o in w.orders && step.event == MessageOf(o))
    case Book(execution) => execution in w.exec.filled
    case Reprice(_, _) => true
  }

  /** Generated identifiers are new, and the exchange reports no negative fill. */
  predicate Promised(w: World, step: Step) {
    match step
    case Assess(_, decisionID, _) => forall d :: d in w.decisions ==> d.eventID != decisionID
    case Order(_, id, clientOrderID, _, _) =>
      forall o :: o in w.made ==> o.id != id && o.clientOrderID != clientOrderID
    case Execute(Deliver(_, newID)) => newID !in w.exec.rows
    case Execute(Poll(Some(fills))) => forall f :: f in fills ==> f.quantity >= 0.0
    case _ => true
  }

  function Assessed(w: World, s: Signal, decisionID: string, verdict: Option<bool>): World {
    if s.id in w.riskSeen then w
    else
      var marked := w.(riskSeen := w.riskSeen + {s.id});
      match verdict
      case None => marked
      case Some(approved) => marked.(decisions := w.decisions + [DecisionOn(s, decisionID, approved)])
  }

  function Ordered(w: World, d: S.Decision, id: string, clientOrderID: string, correlationID: string, sent: bool): World
  {
    if !d.approved || d.eventID in w.orderSeen then w
    else
      var marked := w.(orderSeen := w.orderSeen + {d.eventID});
      if !O.ValidCreation(S.RequestOf(d)) then marked
      else
        var order := O.NewOrder(S.RequestOf(d), id, clientOrderID, correlationID);
        marked.(made := w.made + [order], orders := if sent then w.orders + [order] else w.orders)
  }

  ghost function Next(w: World, step: Step): World
    requires Enabled(w, step)
  {
    match step
    case Emit(signal) => w.(signals := w.signals + {signal})
    case Assess(signal, decisionID, verdict) => Assessed(w, signal, decisionID, verdict)
    case Order(d, id, clientOrderID, correlationID, sent) => Ordered(w, d, id, clientOrderID, correlationID, sent)
    case Execute(step) => w.(exec := E.Next(w.exec, step))
    case Book(execution) => w.(portfolio := w.portfolio + [P.Filled(FillOf(execution))])
    case Reprice(user, prices) => w.(portfolio := w.portfolio + [P.Priced(user, prices)])
  }

  ghost predicate Behavior(worlds: seq<World>, steps: seq<Step>) {
    && |worlds| == |steps| + 1 && worlds[0] == INITIAL
    && forall i :: 0 <= i < |steps| ==>
        Enabled(worlds[i], steps[i]) && Promised(worlds[i], steps[i]) && worlds[i + 1] == Next(worlds[i], steps[i])
  }

  // --------------------------------------------------------------- who caused what

  predicate DecidedFrom(s: Signal, d: S.Decision) {
    d == DecisionOn(s, d.eventID, d.approved)
  }

  predicate OrderedFrom(d: S.Decision, o: O.Order) {
    && d.approved && O.ValidCreation(S.RequestOf(d))
    && o == O.NewOrder(S.RequestOf(d), o.id, o.clientOrderID, o.correlationID)
  }

  predicate ExecutedFrom(o: O.Order, e: E.Execution) {
    && e.orderID == o.id && e.clientOrderID == o.clientOrderID && e.user == o.userID && e.symbol == o.symbol
    && e.side == SideText(o.side) && e.original == o.quantity
  }

  ghost predicate RiskInvariant(w: World) {
    && (forall d :: d in w.decisions ==> d.signalID in w.riskSeen && exists s :: s in w.signals && DecidedFrom(s, d))
    && (forall i, j :: 0 <= i < j < |w.decisions| ==>
          w.decisions[i].signalID != w.decisions[j].signalID && w.decisions[i].eventID != w.decisions[j].eventID)
  }

  ghost predicate OrderInvariant(w: World) {
    && (forall o :: o in w.made ==>
          o.riskDecisionID in w.orderSeen && exists d :: d in w.decisions && OrderedFrom(d, o))
    && (forall i, j :: 0 <= i < j < |w.made| ==>
          && w.made[i].riskDecisionID != w.made[j].riskDecisionID && w.made[i].id != w.made[j].id
          && w.made[i].clientOrderID != w.made[j].clientOrderID)
    && (forall o :: o in w.orders ==> o in w.made)
    && (forall i, j :: 0 <= i < j < |w.orders| ==> w.orders[i].id != w.orders[j].id)
  }

  ghost predicate RowsTraced(w: World) {
    && (forall k :: k in w.exec.rows ==>
          w.exec.rows[k].orderID in w.exec.processed && exists o :: o in w.orders && ExecutedFrom(o, w.exec.rows[k]))
    && (forall j, k :: j in w.exec.rows && k in w.exec.rows && j != k ==>
          w.exec.rows[j].orderID != w.exec.rows[k].orderID)
  }

  ghost predicate FillsTraced(w: World) {
    forall i :: 0 <= i < |w.portfolio| && w.portfolio[i].Filled? ==>
      exists e :: e in w.exec.filled && w.portfolio[i].fill == FillOf(e)
  }

  ghost predicate Invariant(w: World) {
    RiskInvariant(w) && OrderInvariant(w) && E.Invariant(w.exec) && RowsTraced(w) && FillsTraced(w)
  }

  // ------------------------------------------------------------- the invariant is kept

  lemma EmitKeepsInvariant(w: World, signal: Signal)
    requires Invariant(w)
    ensures Invariant(Next(w, Emit(signal)))
  {
    hide E.Invariant;
    var next := Next(w, Emit(signal));
    forall d | d in next.decisions
      ensures exists s :: s in next.signals && DecidedFrom(s, d)
    {
      var s :| s in w.signals && DecidedFrom(s, d);
      assert s in next.signals;
    }
  }

  lemma AssessKeepsRisk(w: World, s: Signal, decisionID: string, verdict: Option<bool>)
    requires RiskInvariant(w) && s in w.signals && Promised(w, Assess(s, decisionID, verdict))
    ensures RiskInvariant(Assessed(w, s, decisionID, verdict))
  {
    var next := Assessed(w, s, decisionID, verdict);
    if s.id !in w.riskSeen && verdict.Some? {
      var d := DecisionOn(s, decisionID, verdict.value);
      assert DecidedFrom(s, d);
      assert next.decisions == w.decisions + [d];
      forall i | 0 <= i < |w.decisions|
        ensures w.decisions[i].signalID != d.signalID && w.decisions[i].eventID != d.eventID
      {
        assert w.decisions[i] in w.decisions;
      }
    }
  }

  lemma AssessKeepsOrders(w: World, s: Signal, decisionID: string, verdict: Option<bool>)
    requires OrderInvariant(w)
    ensures OrderInvariant(Assessed(w, s, decisionID, verdict))
  {
    var next := Assessed(w, s, decisionID, verdict);
    forall o | o in w.made
      ensures exists d :: d in next.decisions && OrderedFrom(d, o)
    {
      var d :| d in w.decisions && OrderedFrom(d, o);
      assert d in next.decisions;
    }
  }

  lemma OrderKeepsOrders(w: World, d: S.Decision, id: string, clientOrderID: string, correlationID: string, sent: bool)
    requires OrderInvariant(w) && d in w.decisions && Promised(w, Order(d, id, clientOrderID, correlationID, sent))
    ensures OrderInvariant(Ordered(w, d, id, clientOrderID, correlationID, sent))
  {
    if d.approved && d.eventID !in w.orderSeen && O.ValidCreation(S.RequestOf(d)) {
      var order := O.NewOrder(S.RequestOf(d), id, clientOrderID, correlationID);
      assert OrderedFrom(d, order);
      forall i | 0 <= i < |w.made|
        ensures w.made[i].riskDecisionID != d.eventID && w.made[i].id != id && w.made[i].clientOrderID != clientOrderID
      {
        assert w.made[i] in w.made;
      }
      forall i | 0 <= i < |w.orders|
        ensures w.orders[i].id != id
      {
        assert w.orders[i] in w.made;
      }
      hide OrderedFrom;
    }
  }

  lemma OrderKeepsRows(w: World, d: S.Decision, id: string, clientOrderID: string, correlationID: string, sent: bool)
    requires RowsTraced(w)
    ensures RowsTraced(Ordered(w, d, id, clientOrderID, correlationID, sent))
  {
    var next := Ordered(w, d, id, clientOrderID, correlationID, sent);
    forall k | k in w.exec.rows
      ensures exists o :: o in next.orders && ExecutedFrom(o, w.exec.rows[k])
    {
      var o :| o in w.orders && ExecutedFrom(o, w.exec.rows[k]);
      assert o in next.orders;
    }
  }

  lemma SameOrder(w: World, a: O.Order, b: O.Order)
    requires OrderInvariant(w) && a in w.made && b in w.made
    requires a.id == b.id || a.clientOrderID == b.clientOrderID || a.riskDecisionID == b.riskDecisionID
    ensures a == b
  {
    var i :| 0 <= i < |w.made| && w.made[i] == a;
    var j :| 0 <= j < |w.made| && w.made[j] == b;
  }

  lemma SameDecision(w: World, a: S.Decision, b: S.Decision)
    requires RiskInvariant(w) && a in w.decisions && b in w.decisions
    requires a.signalID == b.signalID || a.eventID == b.eventID
    ensures a == b
  {
    var i :| 0 <= i < |w.decisions| && w.decisions[i] == a;
    var j :| 0 <= j < |w.decisions| && w.decisions[j] == b;
  }

  /** What the execution service assumes about new orders is what the order service provides. */
  lemma OrdersArePromised(w: World, step: E.Step)
    requires OrderInvariant(w) && RowsTraced(w) && Enabled(w, Execute(step)) && Promised(w, Execute(step))
    ensures E.Promised(w.exec, step)
  {
    if step.Deliver? {
      var o :| o in w.orders && step.event == MessageOf(o);
      var d :| d in w.decisions && OrderedFrom(d, o);
      if step.event.orderID !in w.exec.processed {
        forall k | k in w.exec.rows
          ensures w.exec.rows[k].clientOrderID != o.clientOrderID
        {
          var p :| p in w.orders && ExecutedFrom(p, w.exec.rows[k]);
          if p.clientOrderID == o.clientOrderID { SameOrder(w, p, o); }
        }
      }
    }
  }

  lemma RowsOfNext(s: E.State, step: E.Step, k: string)
    requires E.Invariant(s) && E.Enabled(s, step) && E.Promised(s, step) && k in E.Next(s, step).rows
    ensures s.processed <= E.Next(s, step).processed
    ensures k in s.rows ==> X.KeepsLifecycle(s.rows[k], E.Next(s, step).rows[k])
    ensures k !in s.rows ==>
      && step.Deliver? && k == step.newID && step.event.orderID !in s.processed
      && E.Next(s, step).rows[k] == E.NewExecution(step.event, k)
      && step.event.orderID in E.Next(s, step).processed
  {
    if k in s.rows {
      X.StepKeepsLifecycle(s, step, k);
    }
    hide E.Accounts, X.KeepsLifecycle, E.ApplyFills;
  }

  lemma TracedRow(w: World, step: E.Step, k: string)
    requires OrderInvariant(w) && E.Invariant(w.exec) && RowsTraced(w)
    requires Enabled(w, Execute(step)) && Promised(w, Execute(step)) && k in E.Next(w.exec, step).rows
    ensures var row := E.Next(w.exec, step).rows[k];
      && row.orderID in E.Next(w.exec, step).processed
      && (exists o :: o in w.orders && ExecutedFrom(o, row))
      && (k in w.exec.rows ==> row.orderID == w.exec.rows[k].orderID)
      && (k !in w.exec.rows ==> step.Deliver? && k == step.newID && row.orderID !in w.exec.processed)
  {
    OrdersArePromised(w, step);
    RowsOfNext(w.exec, step, k);
    hide E.Next, E.Invariant, E.Enabled, E.Promised;
    if k in w.exec.rows {
      var o :| o in w.orders && ExecutedFrom(o, w.exec.rows[k]);
      assert ExecutedFrom(o, E.Next(w.exec, step).rows[k]);
    } else {
      var o :| o in w.orders && step.event == MessageOf(o);
      assert ExecutedFrom(o, E.Next(w.exec, step).rows[k]);
    }
  }

  lemma ExecuteKeepsRows(w: World, step: E.Step)
    requires OrderInvariant(w) && E.Invariant(w.exec) && RowsTraced(w)
    requires Enabled(w, Execute(step)) && Promised(w, Execute(step))
    ensures RowsTraced(Next(w, Execute(step)))
  {
    hide E.Next, E.Invariant, E.Enabled, E.Promised, OrderInvariant, ExecutedFrom;
    var rows := E.Next(w.exec, step).rows;
    forall k | k in rows
      ensures rows[k].orderID in E.Next(w.exec, step).processed
      ensures exists o :: o in w.orders && ExecutedFrom(o, rows[k])
      ensures k in w.exec.rows ==> rows[k].orderID == w.exec.rows[k].orderID
      ensures k !in w.exec.rows ==> step.Deliver? && k == step.newID && rows[k].orderID !in w.exec.processed
    {
      TracedRow(w, step, k);
    }
  }

  lemma FilledGrows(s: E.State, step: E.Step)
    requires E.Enabled(s, step)
    ensures forall e :: e in s.filled ==> e in E.Next(s, step).filled
  {
    hide E.ApplyFills;
  }

  lemma ExecuteKeepsFills(w: World, step: E.Step)
    requires FillsTraced(w) && Enabled(w, Execute(step))
    ensures FillsTraced(Next(w, Execute(step)))
  {
    FilledGrows(w.exec, step);
    hide E.Next, E.Enabled;
    forall i | 0 <= i < |w.portfolio| && w.portfolio[i].Filled?
      ensures exists e :: e in E.Next(w.exec, step).filled && w.portfolio[i].fill == FillOf(e)
    {
      var e :| e in w.exec.filled && w.portfolio[i].fill == FillOf(e);
      assert e in E.Next(w.exec, step).filled;
    }
  }

  lemma BookKeepsFills(w: World, step: Step)
    requires FillsTraced(w) && Enabled(w, step) && (step.Book? || step.Reprice?)
    ensures FillsTraced(Next(w, step))
  {
    var next := Next(w, step);
    forall i | 0 <= i < |next.portfolio| && next.portfolio[i].Filled?
      ensures exists e :: e in next.exec.filled && next.portfolio[i].fill == FillOf(e)
    {
      if i == |w.portfolio| {
        assert step.execution in next.exec.filled;
      } else {
        assert w.portfolio[i] == next.portfolio[i];
      }
    }
  }

  lemma ExecuteKeepsExecutions(w: World, step: E.Step)
    requires OrderInvariant(w) && E.Invariant(w.exec) && RowsTraced(w)
    requires Enabled(w, Execute(step)) && Promised(w, Execute(step))
    ensures E.Invariant(E.Next(w.exec, step))
  {
    OrdersArePromised(w, step);
    hide *;
    X.InvariantIsKept(w.exec, step);
  }

  lemma ExecuteKeepsInvariant(w: World, step: E.Step)
    requires Invariant(w) && Enabled(w, Execute(step)) && Promised(w, Execute(step))
    ensures Invariant(Next(w, Execute(step)))
  {
    hide E.Next, E.Invariant, E.Enabled, E.Promised, RowsTraced, FillsTraced, RiskInvariant, OrderInvariant;
    ExecuteKeepsExecutions(w, step);
    ExecuteKeepsRows(w, step);
    ExecuteKeepsFills(w, step);
    assert RiskInvariant(Next(w, Execute(step))) && OrderInvariant(Next(w, Execute(step))) by {
      OnlyExecutionsChange(w, step);
    }
  }

  lemma OnlyExecutionsChange(w: World, step: E.Step)
    requires RiskInvariant(w) && OrderInvariant(w) && Enabled(w, Execute(step))
    ensures RiskInvariant(Next(w, Execute(step))) && OrderInvariant(Next(w, Execute(step)))
  {
    hide E.Next, E.Enabled;
  }

  lemma AssessKeepsInvariant(w: World, s: Signal, decisionID: string, verdict: Option<bool>)
    requires Invariant(w) && s in w.signals && Promised(w, Assess(s, decisionID, verdict))
    ensures Invariant(Assessed(w, s, decisionID, verdict))
  {
    hide E.Invariant, RiskInvariant, OrderInvariant;
    AssessKeepsRisk(w, s, decisionID, verdict);
    AssessKeepsOrders(w, s, decisionID, verdict);
  }

  lemma OrderKeepsInvariant(w: World, d: S.Decision, id: string, clientOrderID: string, correlationID: string,
                            sent: bool)
    requires Invariant(w) && d in w.decisions && Promised(w, Order(d, id, clientOrderID, correlationID, sent))
    ensures Invariant(Ordered(w, d, id, clientOrderID, correlationID, sent))
  {
    hide E.Invariant, OrderInvariant, RowsTraced;
    OrderKeepsOrders(w, d, id, clientOrderID, correlationID, sent);
    OrderKeepsRows(w, d, id, clientOrderID, correlationID, sent);
  }

  lemma BookKeepsInvariant(w: World, step: Step)
    requires Invariant(w) && Enabled(w, step) && (step.Book? || step.Reprice?)
    ensures Invariant(Next(w, step))
  {
    hide E.Invariant, FillsTraced;
    BookKeepsFills(w, step);
  }

  lemma InvariantIsKept(w: World, step: Step)
    requires Invariant(w) && Enabled(w, step) && Promised(w, step)
    ensures Invariant(Next(w, step))
  {
    hide Invariant, Promised, Assessed, Ordered, E.Next, E.Enabled;
    match step {
      case Emit(signal) => EmitKeepsInvariant(w, signal);
      case Assess(s, decisionID, verdict) => AssessKeepsInvariant(w, s, decisionID, verdict);
      case Order(d, id, clientOrderID, correlationID, sent) =>
        OrderKeepsInvariant(w, d, id, clientOrderID, correlationID, sent);
      case Execute(inner) => ExecuteKeepsInvariant(w, inner);
      case _ => BookKeepsInvariant(w, step);
    }
  }

  lemma {:induction false} InvariantAlways(worlds: seq<World>, steps: seq<Step>, n: nat)
    requires Behavior(worlds, steps) && n <= |steps|
    ensures Invariant(worlds[n])
  {
    if n > 0 {
      InvariantAlways(worlds, steps, n - 1);
      hide Invariant;
      InvariantIsKept(worlds[n - 1], steps[n - 1]);
    }
  }

  // ------------------------------------------------------------------- the guarantees

  /** The fill was caused by the signal: one decision, one order and one execution lead from it to the fill. */
  ghost predicate Causes(w: World, s: Signal, f: P.Fill) {
    exists d, o, e ::
      && s in w.signals && d in w.decisions && o in w.orders && e in w.exec.filled
      && DecidedFrom(s, d) && OrderedFrom(d, o) && ExecutedFrom(o, e) && f == FillOf(e)
  }

  /** A fill carries the user, the symbol, the whole quantity and the side of the signal that caused it. */
  predicate Carries(s: Signal, f: P.Fill) {
    && f.user == s.userID && f.symbol == s.symbol && f.quantity == s.quantity > 0.0
    && f.side == (if s.side == "SELL" then "SELL" else "BUY")
  }

  /** Each signal ID has at most one decision, each decision at most one order, each order at most one
      execution, and each execution publishes at most one fill. */
  lemma AtMostOnce(worlds: seq<World>, steps: seq<Step>, n: nat)
    requires Behavior(worlds, steps) && n <= |steps|
    ensures var w := worlds[n];
      && (forall i, j :: 0 <= i < j < |w.decisions| ==> w.decisions[i].signalID != w.decisions[j].signalID)
      && (forall i, j :: 0 <= i < j < |w.orders| ==> w.orders[i].riskDecisionID != w.orders[j].riskDecisionID)
      && (forall j, k :: j in w.exec.rows && k in w.exec.rows && j != k ==>
            w.exec.rows[j].orderID != w.exec.rows[k].orderID)
      && (forall i, j :: 0 <= i < j < |w.exec.filled| ==> w.exec.filled[i].id != w.exec.filled[j].id)
  {
    var w := worlds[n];
    InvariantAlways(worlds, steps, n);
    hide E.RowsFine, E.DraftIsStored, E.ReconcilerIsCurrent;
    forall i, j | 0 <= i < j < |w.orders|
      ensures w.orders[i].riskDecisionID != w.orders[j].riskDecisionID
    {
      assert w.orders[i] in w.made && w.orders[j] in w.made;
      if w.orders[i].riskDecisionID == w.orders[j].riskDecisionID { SameOrder(w, w.orders[i], w.orders[j]); }
    }
  }

  lemma FilledRow(s: E.State, e: E.Execution)
    requires E.Invariant(s) && e in s.filled
    ensures e.id in s.rows && s.rows[e.id] == e && e.executed == e.original
  {
    assert E.FilledOnce(s) && E.RowsFine(s);
    assert E.Accounts(s.rows[e.id], E.AcceptedBy(s, e.id));
  }

  lemma CarriedAlong(s: Signal, d: S.Decision, o: O.Order, e: E.Execution)
    requires DecidedFrom(s, d) && OrderedFrom(d, o) && ExecutedFrom(o, e) && e.executed == e.original
    ensures Carries(s, FillOf(e))
  {
  }

  lemma FilledIsTraced(w: World, e: E.Execution) returns (s: Signal)
    requires Invariant(w) && e in w.exec.filled
    ensures Causes(w, s, FillOf(e)) && Carries(s, FillOf(e))
  {
    FilledRow(w.exec, e);
    var o :| o in w.orders && ExecutedFrom(o, w.exec.rows[e.id]);
    var d :| d in w.decisions && OrderedFrom(d, o);
    s :| s in w.signals && DecidedFrom(s, d);
    hide E.Invariant, RiskInvariant, OrderInvariant, RowsTraced, FillsTraced, DecidedFrom, OrderedFrom, ExecutedFrom;
    CarriedAlong(s, d, o, e);
  }

  lemma {:induction false} AppliedIsDelivered(events: seq<P.Event>, k: nat)
    requires k < |T.Applied(events)|
    ensures P.Filled(T.Applied(events)[k]) in events
  {
    var front := events[..|events| - 1];
    if k < |T.Applied(front)| {
      AppliedIsDelivered(front, k);
    }
  }

  lemma {:induction false} AppliedIsDistinct(events: seq<P.Event>, j: nat, k: nat)
    requires j < k < |T.Applied(events)|
    ensures T.Applied(events)[j].executionID != T.Applied(events)[k].executionID
  {
    var front := events[..|events| - 1];
    if k < |T.Applied(front)| {
      AppliedIsDistinct(front, j, k);
    } else {
      AppliedIsDelivered(front, j);
      assert T.IsFillWithID(P.Filled(T.Applied(front)[j]), T.Applied(front)[j].executionID);
    }
  }

  /** Every fill that the portfolio service applied was caused by a published and approved signal. */
  lemma EveryFillHasItsSignal(worlds: seq<World>, steps: seq<Step>, n: nat, k: nat) returns (s: Signal)
    requires Behavior(worlds, steps) && n <= |steps| && k < |T.Applied(worlds[n].portfolio)|
    ensures Causes(worlds[n], s, T.Applied(worlds[n].portfolio)[k]) && Carries(s, T.Applied(worlds[n].portfolio)[k])
  {
    var w := worlds[n];
    InvariantAlways(worlds, steps, n);
    AppliedIsDelivered(w.portfolio, k);
    var i :| 0 <= i < |w.portfolio| && w.portfolio[i] == P.Filled(T.Applied(w.portfolio)[k]);
    var e :| e in w.exec.filled && w.portfolio[i].fill == FillOf(e);
    hide Invariant, Causes;
    s := FilledIsTraced(w, e);
  }

  /** No signal ID causes two fills, however often any message is redelivered. */
  lemma CausesIsInjective(w: World, s: Signal, f: P.Fill, t: Signal, g: P.Fill)
    requires Invariant(w) && Causes(w, s, f) && Causes(w, t, g) && s.id == t.id
    ensures f == g
  {
    var d, o, e :| s in w.signals && d in w.decisions && o in w.orders && e in w.exec.filled
      && DecidedFrom(s, d) && OrderedFrom(d, o) && ExecutedFrom(o, e) && f == FillOf(e);
    var d', o', e' :| t in w.signals && d' in w.decisions && o' in w.orders && e' in w.exec.filled
      && DecidedFrom(t, d') && OrderedFrom(d', o') && ExecutedFrom(o', e') && g == FillOf(e');
    assert E.FilledOnce(w.exec);
    assert w.exec.rows[e.id] == e && w.exec.rows[e'.id] == e';
    assert o in w.made && o' in w.made;
    hide E.FilledOnce, E.Invariant;
    SameDecision(w, d, d');
    SameOrder(w, o, o');
    assert e.orderID == e'.orderID;
    hide RiskInvariant, OrderInvariant, DecidedFrom, OrderedFrom, ExecutedFrom;
  }

  lemma OneFillPerSignal(worlds: seq<World>, steps: seq<Step>, n: nat, j: nat, k: nat, s: Signal, t: Signal)
    requires Behavior(worlds, steps) && n <= |steps| && j < k < |T.Applied(worlds[n].portfolio)|
    requires Causes(worlds[n], s, T.Applied(worlds[n].portfolio)[j])
    requires Causes(worlds[n], t, T.Applied(worlds[n].portfolio)[k])
    ensures s.id != t.id
  {
    InvariantAlways(worlds, steps, n);
    AppliedIsDistinct(worlds[n].portfolio, j, k);
    hide Invariant, Causes;
    if s.id == t.id {
      CausesIsInjective(worlds[n], s, T.Applied(worlds[n].portfolio)[j], t, T.Applied(worlds[n].portfolio)[k]);
    }
  }

  /** A booked fill has the fees and the value of the exchange's fills, and no more quantity than they had. */
  predicate Reports(f: P.Fill, fills: seq<E.FillRecord>) {
    && f.fees == E.Fees(fills) && f.price * f.quantity == E.Notional(fills)
    && 0.0 < f.quantity <= E.Quantity(fills)
  }

  lemma FilledReports(s: E.State, e: E.Execution)
    requires E.Invariant(s) && e in s.filled
    ensures FillOf(e).executionID == e.id && Reports(FillOf(e), E.AcceptedBy(s, e.id))
  {
    assert E.FilledOnce(s) && E.RowsFine(s);
    assert E.Accounts(s.rows[e.id], E.AcceptedBy(s, e.id));
  }

  lemma AppliedIsPublished(w: World, k: nat) returns (e: E.Execution)
    requires Invariant(w) && k < |T.Applied(w.portfolio)|
    ensures e in w.exec.filled && T.Applied(w.portfolio)[k] == FillOf(e) && E.Invariant(w.exec)
  {
    AppliedIsDelivered(w.portfolio, k);
    hide E.Invariant, RiskInvariant, OrderInvariant, RowsTraced, T.Applied;
    var i :| 0 <= i < |w.portfolio| && w.portfolio[i] == P.Filled(T.Applied(w.portfolio)[k]);
    e :| e in w.exec.filled && w.portfolio[i].fill == FillOf(e);
  }

  /** What the portfolio service books is what the exchange reported: an applied fill carries the fees and the value of
      the fills that were polled for its execution, and no more quantity than they had. */
  lemma EveryFillIsReported(worlds: seq<World>, steps: seq<Step>, n: nat, k: nat) returns (fills: seq<E.FillRecord>)
    requires Behavior(worlds, steps) && n <= |steps| && k < |T.Applied(worlds[n].portfolio)|
    ensures var f := T.Applied(worlds[n].portfolio)[k];
      fills == E.AcceptedBy(worlds[n].exec, f.executionID) && Reports(f, fills)
  {
    var w := worlds[n];
    hide *;
    InvariantAlways(worlds, steps, n);
    var e := AppliedIsPublished(w, k);
    FilledReports(w.exec, e);
    fills := E.AcceptedBy(w.exec, e.id);
  }

  lemma SeenSetsGrow(w: World, step: Step)
    requires Enabled(w, step)
    ensures w.riskSeen <= Next(w, step).riskSeen && w.orderSeen <= Next(w, step).orderSeen
  {
    hide E.Next, E.Enabled;
  }

  lemma HandledIsSeen(w: World, step: Step)
    requires Enabled(w, step)
    ensures step.Assess? ==> step.signal.id in Next(w, step).riskSeen
    ensures step.Order? && step.decision.approved ==> step.decision.eventID in Next(w, step).orderSeen
  {
    hide E.Next, E.Enabled;
  }

  lemma SeenIsIgnored(w: World, step: Step)
    requires Enabled(w, step)
    ensures step.Assess? && step.signal.id in w.riskSeen ==> Next(w, step) == w
    ensures step.Order? && (!step.decision.approved || step.decision.eventID in w.orderSeen) ==> Next(w, step) == w
  {
  }

  lemma {:induction false} SeenStaysSeen(worlds: seq<World>, steps: seq<Step>, m: nat, n: nat)
    requires Behavior(worlds, steps) && m <= n <= |steps|
    ensures worlds[m].riskSeen <= worlds[n].riskSeen && worlds[m].orderSeen <= worlds[n].orderSeen
    decreases n
  {
    if m < n {
      SeenStaysSeen(worlds, steps, m, n - 1);
      assert Enabled(worlds[n - 1], steps[n - 1]) && worlds[n] == Next(worlds[n - 1], steps[n - 1]);
      hide Enabled, Next, Promised;
      SeenSetsGrow(worlds[n - 1], steps[n - 1]);
    }
  }

  predicate SameMessage(a: Step, b: Step) {
    || (a.Assess? && b.Assess? && a.signal.id == b.signal.id)
    || (a.Order? && b.Order? && a.decision.approved && a.decision.eventID == b.decision.eventID)
  }

  /** A signal ID is judged once and a decision ordered once: whatever became of the first delivery, also when no
      policy was found, the publication failed or the request was not valid, every later one changes nothing. */
  lemma RepeatedMessagesChangeNothing(worlds: seq<World>, steps: seq<Step>, m: nat, n: nat)
    requires Behavior(worlds, steps) && m < n < |steps| && SameMessage(steps[m], steps[n])
    ensures worlds[n + 1] == worlds[n]
  {
    assert Enabled(worlds[m], steps[m]) && worlds[m + 1] == Next(worlds[m], steps[m]);
    assert Enabled(worlds[n], steps[n]) && worlds[n + 1] == Next(worlds[n], steps[n]);
    hide Enabled, Next, Promised;
    HandledIsSeen(worlds[m], steps[m]);
    SeenStaysSeen(worlds, steps, m + 1, n);
    SeenIsIgnored(worlds[n], steps[n]);
  }

  // --------------------------------------------------------------- holdings from signals

  function SignedSignal(s: Signal): real {
    if s.side == "SELL" then -s.quantity else s.quantity
  }

  function NetOfSignals(signals: seq<Signal>, userID: string, symbol: string): real {
    if signals == [] then 0.0
    else
      var last := signals[|signals| - 1];
      NetOfSignals(signals[..|signals| - 1], userID, symbol)
      + (if last.userID == userID && last.symbol == symbol then SignedSignal(last) else 0.0)
  }

  /** The signals behind a list of fills, one each. */
  ghost predicate Behind(w: World, signals: seq<Signal>, fills: seq<P.Fill>) {
    |signals| == |fills|
    && forall k :: 0 <= k < |fills| ==> Causes(w, signals[k], fills[k]) && Carries(signals[k], fills[k])
  }

  lemma {:induction false} NetOfCauses(w: World, signals: seq<Signal>, fills: seq<P.Fill>,
                                       userID: string, symbol: string)
    requires Behind(w, signals, fills)
    ensures NetOfSignals(signals, userID, symbol) == T.NetQuantity(fills, userID, symbol)
  {
    if fills != [] {
      hide Causes;
      assert Carries(signals[|fills| - 1], fills[|fills| - 1]);
      NetOfCauses(w, signals[..|fills| - 1], fills[..|fills| - 1], userID, symbol);
    }
  }

  lemma {:induction false} SignalsBehind(worlds: seq<World>, steps: seq<Step>, n: nat, m: nat)
    returns (signals: seq<Signal>)
    requires Behavior(worlds, steps) && n <= |steps| && m <= |T.Applied(worlds[n].portfolio)|
    ensures Behind(worlds[n], signals, T.Applied(worlds[n].portfolio)[..m])
  {
    hide Behavior, Causes, Carries, T.Applied;
    if m == 0 {
      signals := [];
    } else {
      var front := SignalsBehind(worlds, steps, n, m - 1);
      var s := EveryFillHasItsSignal(worlds, steps, n, m - 1);
      signals := front + [s];
    }
  }

  lemma PortfolioIsNonNegative(w: World)
    requires Invariant(w)
    ensures P.NonNegative(w.portfolio)
  {
    forall ev | ev in w.portfolio && ev.Filled?
      ensures ev.fill.quantity >= 0.0
    {
      var i :| 0 <= i < |w.portfolio| && w.portfolio[i] == ev;
      var e :| e in w.exec.filled && w.portfolio[i].fill == FillOf(e);
      var s := FilledIsTraced(w, e);
      hide Invariant, Causes;
    }
  }

  /** In every reachable state of the whole system a user holds of a symbol exactly the signed quantities of
      some approved signals of that user, one for each applied fill and none of them counted twice. */
  lemma HoldingsAreSignals(worlds: seq<World>, steps: seq<Step>, n: nat, userID: string, symbol: string)
    returns (signals: seq<Signal>)
    requires Behavior(worlds, steps) && n <= |steps|
    ensures P.NonNegative(worlds[n].portfolio)
    ensures Behind(worlds[n], signals, T.Applied(worlds[n].portfolio))
    ensures forall j, k :: 0 <= j < k < |signals| ==> signals[j].id != signals[k].id
    ensures T.HeldIn(P.BookOf(P.Run(worlds[n].portfolio), userID), symbol) == NetOfSignals(signals, userID, symbol)
  {
    var fills := T.Applied(worlds[n].portfolio);
    InvariantAlways(worlds, steps, n);
    PortfolioIsNonNegative(worlds[n]);
    hide *;
    signals := SignalsBehind(worlds, steps, n, |fills|);
    assert fills[..|fills|] == fills;
    NetOfCauses(worlds[n], signals, fills, userID, symbol);
    T.NetPosition(worlds[n].portfolio, userID, symbol);
    DistinctSignals(worlds, steps, n, signals);
  }

  lemma DistinctSignals(worlds: seq<World>, steps: seq<Step>, n: nat, signals: seq<Signal>)
    requires Behavior(worlds, steps) && n <= |steps|
    requires Behind(worlds[n], signals, T.Applied(worlds[n].portfolio))
    ensures forall j, k :: 0 <= j < k < |signals| ==> signals[j].id != signals[k].id
  {
    hide Behavior, Causes, Carries, T.Applied;
    forall j, k | 0 <= j < k < |signals|
      ensures signals[j].id != signals[k].id
    {
      OneFillPerSignal(worlds, steps, n, j, k, signals[j], signals[k]);
    }
  }

  lemma FirstIsMember<A>(s: seq<A>)
    ensures s == [] || s[0] in s
  {
  }

  /** What the order service asks of a decision, in terms of the signal that the decision copies. */
  predicate Orderable(s: Signal) {
    s.userID != "" && s.strategyID != "" && s.symbol != "" && s.quantity > 0.0
  }

  lemma OrdersNeedOrderable(w: World)
    requires RiskInvariant(w) && OrderInvariant(w)
    ensures forall o :: o in w.made ==> exists s :: s in w.signals && Orderable(s)
  {
    forall o | o in w.made
      ensures exists s :: s in w.signals && Orderable(s)
    {
      var d :| d in w.decisions && OrderedFrom(d, o);
      var s :| s in w.signals && DecidedFrom(s, d);
      assert Orderable(s);
    }
  }

  lemma FillsHaveOrders(w: World)
    requires Invariant(w)
    ensures forall e :: e in w.exec.filled ==> exists o :: o in w.made
  {
    forall e | e in w.exec.filled
      ensures exists o :: o in w.made
    {
      assert E.FilledOnce(w.exec);
      var o :| o in w.orders && ExecutedFrom(o, w.exec.rows[e.id]);
      assert o in w.made;
    }
  }

  /** Where no signal has a user, a strategy, a symbol and a positive quantity, no order is ever made. */
  lemma UnorderableSignalsMakeNoOrder(worlds: seq<World>, steps: seq<Step>, n: nat)
    requires Behavior(worlds, steps) && n <= |steps|
    requires forall s :: s in worlds[n].signals ==> !Orderable(s)
    ensures worlds[n].made == [] && worlds[n].orders == [] && worlds[n].exec.filled == []
  {
    var w := worlds[n];
    InvariantAlways(worlds, steps, n);
    OrdersNeedOrderable(w);
    FillsHaveOrders(w);
    FirstIsMember(w.made);
    FirstIsMember(w.orders);
    FirstIsMember(w.exec.filled);
    hide E.Invariant, RowsTraced, FillsTraced;
  }

  // ----------------------------------------------------------------- the runs do exist

  /** `approves` is what the evaluator says of a signal under the policy and the portfolio snapshot that it is given. A
      run is judged by it when no other signal is ever approved. */
  predicate Judged(steps: seq<Step>, approves: Signal -> bool) {
    forall i :: 0 <= i < |steps| ==> JudgedStep(steps[i], approves)
  }

  predicate JudgedStep(step: Step, approves: Signal -> bool) {
    step.Assess? && step.verdict == Some(true) ==> approves(step.signal)
  }

  ghost predicate CanReach(approves: Signal -> bool, w: World) {
    exists worlds, steps :: Behavior(worlds, steps) && Judged(steps, approves) && worlds[|steps|] == w
  }

  lemma OneMoreStep(worlds: seq<World>, steps: seq<Step>, step: Step)
    requires Behavior(worlds, steps) && Enabled(worlds[|steps|], step) && Promised(worlds[|steps|], step)
    ensures Behavior(worlds + [Next(worlds[|steps|], step)], steps + [step])
  {
    hide Enabled, Promised, Next;
  }

  lemma Reached(approves: Signal -> bool, w: World, step: Step)
    requires CanReach(approves, w) && Enabled(w, step) && Promised(w, step) && JudgedStep(step, approves)
    ensures CanReach(approves, Next(w, step))
  {
    var worlds, steps :| Behavior(worlds, steps) && Judged(steps, approves) && worlds[|steps|] == w;
    OneMoreStep(worlds, steps, step);
    hide Enabled, Promised, Next, JudgedStep;
    assert Judged(steps + [step], approves);
    assert (worlds + [Next(w, step)])[|steps + [step]|] == Next(w, step);
  }

  lemma InitialIsReached(approves: Signal -> bool)
    ensures CanReach(approves, INITIAL)
  {
    var none: seq<Step> := [];
    assert Behavior([INITIAL], none) && Judged(none, approves) && [INITIAL][|none|] == INITIAL;
  }

  function OrderFor(s: Signal): O.Order {
    O.NewOrder(S.RequestOf(DecisionOn(s, "d", true)), "o", "c", "k")
  }

  lemma SignalReachesTheOrder(approves: Signal -> bool, s: Signal)
    requires Orderable(s) && approves(s)
    ensures CanReach(approves, World({s}, {s.id}, [DecisionOn(s, "d", true)], {"d"}, [OrderFor(s)], [OrderFor(s)],
                                     E.INITIAL, []))
  {
    InitialIsReached(approves);
    hide CanReach;
    var signalled := INITIAL.(signals := {s});
    Reached(approves, INITIAL, Emit(s));
    assert Next(INITIAL, Emit(s)) == signalled;
    var decided := signalled.(riskSeen := {s.id}, decisions := [DecisionOn(s, "d", true)]);
    Reached(approves, signalled, Assess(s, "d", Some(true)));
    assert Next(signalled, Assess(s, "d", Some(true))) == decided;
    Reached(approves, decided, Order(DecisionOn(s, "d", true), "o", "c", "k", true));
    assert Next(decided, Order(DecisionOn(s, "d", true), "o", "c", "k", true))
        == World({s}, {s.id}, [DecisionOn(s, "d", true)], {"d"}, [OrderFor(s)], [OrderFor(s)], E.INITIAL, []);
  }

  lemma OrderIsFilled(approves: Signal -> bool, w: World, o: O.Order, price: real)
    requires CanReach(approves, w) && w.exec == E.INITIAL && w.orders == [o] && o.quantity > 0.0
    ensures exists e: E.Execution ::
      e.executed == e.original && ExecutedFrom(o, e) && e.average == price
      && CanReach(approves, w.(portfolio := w.portfolio + [P.Filled(FillOf(e))],
                     exec := E.State({o.id}, map["e" := e], E.Waiting, E.Sleeping, [E.Call(o.id, o.clientOrderID)], [e],
                                     map["e" := [E.FillRecord(o.quantity, price, 0.0)]])))
  {
    hide CanReach;
    var message := MessageOf(o);
    var draft := E.NewExecution(message, "e");
    Reached(approves, w, Execute(E.Deliver(message, "e")));
    var s1 := E.State({o.id}, map["e" := draft], E.Working(o.id, draft), E.Sleeping, [], [], map["e" := []]);
    assert E.Next(w.exec, E.Deliver(message, "e")) == s1;
    var row := draft.(exchangeID := "x", status := E.Submitted, attempts := 1);
    var s2 := s1.(consumer := E.Waiting, rows := map["e" := row], calls := [E.Call(o.id, o.clientOrderID)]);
    Reached(approves, w.(exec := s1), Execute(E.Finish(E.Accepted("x"), 1)));
    assert E.Next(s1, E.Finish(E.Accepted("x"), 1)) == s2;
    ListedAndPolled(approves, w.(exec := s2), row, E.FillRecord(o.quantity, price, 0.0));
    var e := E.Accumulated(row, [E.FillRecord(o.quantity, price, 0.0)]).(status := E.Filled);
    PollsToFilled(row, E.FillRecord(o.quantity, price, 0.0));
    var s3 := s2.(rows := map["e" := e], filled := [e], accepted := map["e" := [E.FillRecord(o.quantity, price, 0.0)]]);
    assert CanReach(approves, w.(exec := s3));
    hide E.Accumulated;
    Reached(approves, w.(exec := s3), Book(e));
  }

  lemma PollsToFilled(row: E.Execution, fill: E.FillRecord)
    requires row.executed == 0.0 && row.value == 0.0 && row.original == fill.quantity > 0.0 && row.status == E.Submitted
    ensures E.ApplyFills(row, [fill]) == Some(E.Accumulated(row, [fill]).(status := E.Filled))
    ensures E.Accumulated(row, [fill]).executed == row.original && E.Accumulated(row, [fill]).average == fill.price
  {
    var none: seq<E.FillRecord> := [];
    assert none + [fill] == [fill];
    assert E.Quantity([fill]) == fill.quantity && E.Notional([fill]) == fill.quantity * fill.price;
    assert fill.quantity * fill.price / fill.quantity == fill.price;
  }

  lemma ListedOnce(approves: Signal -> bool, w: World, row: E.Execution)
    requires CanReach(approves, w) && w.exec.rows == map["e" := row] && w.exec.reconciler == E.Sleeping
    requires row.id == "e" && row.status == E.Submitted
    ensures CanReach(approves, w.(exec := w.exec.(reconciler := E.Polling([row]))))
  {
    hide CanReach;
    var none: seq<E.Execution> := [];
    var listed := w.(exec := w.exec.(reconciler := E.Listed([row])));
    assert E.Enumerates([row], w.exec.rows, E.Submitted);
    Reached(approves, w, Execute(E.ListSubmitted([row])));
    assert E.Enumerates(none, w.exec.rows, E.PartialFilled);
    Reached(approves, listed, Execute(E.ListPartial(none)));
    assert [row] + none == [row];
  }

  lemma ListedAndPolled(approves: Signal -> bool, w: World, row: E.Execution, fill: E.FillRecord)
    requires CanReach(approves, w)
    requires w.exec.rows == map["e" := row] && w.exec.reconciler == E.Sleeping && w.exec.filled == []
    requires row.id == "e" && row.exchangeID != "" && row.executed == 0.0 && row.value == 0.0
    requires row.original == fill.quantity > 0.0 && row.status == E.Submitted && w.exec.accepted == map["e" := []]
    ensures var e := E.Accumulated(row, [fill]).(status := E.Filled);
      CanReach(approves, w.(exec := w.exec.(rows := map["e" := e], filled := [e], accepted := map["e" := [fill]])))
  {
    hide CanReach;
    var e := E.Accumulated(row, [fill]).(status := E.Filled);
    var polling := w.(exec := w.exec.(reconciler := E.Polling([row])));
    ListedOnce(approves, w, row);
    PollsToFilled(row, fill);
    hide E.Accumulated, E.ApplyFills;
    Reached(approves, polling, Execute(E.Poll(Some([fill]))));
    PolledOnce(polling.exec, row, fill, e);
    hide E.Polled;
    assert [row][1..] == [];
  }

  lemma PolledOnce(s: E.State, row: E.Execution, fill: E.FillRecord, e: E.Execution)
    requires s.rows == map["e" := row] && s.filled == [] && s.accepted == map["e" := []]
    requires row.id == "e" && row.exchangeID != "" && e.status == E.Filled && E.ApplyFills(row, [fill]) == Some(e)
    ensures E.Polled(s, row, Some([fill])) == s.(rows := map["e" := e], filled := [e], accepted := map["e" := [fill]])
  {
    hide E.ApplyFills;
    var none: seq<E.FillRecord> := [];
    assert E.AcceptedBy(s, "e") == none && none + [fill] == [fill];
    assert s.rows["e" := e] == map["e" := e] && s.accepted["e" := [fill]] == map["e" := [fill]];
  }

  lemma OneEventIsApplied(f: P.Fill)
    ensures T.Applied([P.Filled(f)]) == [f]
  {
    assert Sequences.Front([P.Filled(f)]) == [];
  }

  /** Every approved signal that an order can be made of can be filled at any price and booked. */
  lemma EverySignalCanBeBooked(approves: Signal -> bool, s: Signal, price: real)
    requires Orderable(s) && approves(s)
    ensures exists w, f ::
      CanReach(approves, w) && w.portfolio == [P.Filled(f)] && Causes(w, s, f) && Carries(s, f) && f.price == price
  {
    SignalReachesTheOrder(approves, s);
    var w := World({s}, {s.id}, [DecisionOn(s, "d", true)], {"d"}, [OrderFor(s)], [OrderFor(s)], E.INITIAL, []);
    OrderIsFilled(approves, w, OrderFor(s), price);
    hide CanReach;
    var e: E.Execution :| e.executed == e.original && ExecutedFrom(OrderFor(s), e) && e.average == price
      && CanReach(approves, w.(portfolio := w.portfolio + [P.Filled(FillOf(e))],
                     exec := E.State({"o"}, map["e" := e], E.Waiting, E.Sleeping, [E.Call("o", "c")], [e],
                                     map["e" := [E.FillRecord(s.quantity, price, 0.0)]])));
    var booked := w.(portfolio := w.portfolio + [P.Filled(FillOf(e))],
                     exec := E.State({"o"}, map["e" := e], E.Waiting, E.Sleeping, [E.Call("o", "c")], [e],
                                     map["e" := [E.FillRecord(s.quantity, price, 0.0)]]));
    var d := DecisionOn(s, "d", true);
    assert DecidedFrom(s, d) && OrderedFrom(d, OrderFor(s));
    assert s in booked.signals && d in booked.decisions && OrderFor(s) in booked.orders && e in booked.exec.filled;
    assert Causes(booked, s, FillOf(e));
    assert Carries(s, FillOf(e));
    assert booked.portfolio == [P.Filled(FillOf(e))];
  }

  ghost predicate ApprovalsTraced(w: World, approves: Signal -> bool) {
    forall d :: d in w.decisions && d.approved ==> exists s :: s in w.signals && DecidedFrom(s, d) && approves(s)
  }

  lemma StepKeepsApprovals(w: World, step: Step, approves: Signal -> bool)
    requires ApprovalsTraced(w, approves) && Enabled(w, step) && JudgedStep(step, approves)
    ensures ApprovalsTraced(Next(w, step), approves)
  {
    hide E.Next, E.Enabled;
    var next := Next(w, step);
    forall d | d in next.decisions && d.approved
      ensures exists s :: s in next.signals && DecidedFrom(s, d) && approves(s)
    {
      if d in w.decisions {
        var s :| s in w.signals && DecidedFrom(s, d) && approves(s);
        assert s in next.signals;
      } else {
        assert step.signal in next.signals && DecidedFrom(step.signal, d);
      }
    }
  }

  lemma {:induction false} ApprovalsAlways(worlds: seq<World>, steps: seq<Step>, approves: Signal -> bool, n: nat)
    requires Behavior(worlds, steps) && Judged(steps, approves) && n <= |steps|
    ensures ApprovalsTraced(worlds[n], approves)
  {
    if n > 0 {
      ApprovalsAlways(worlds, steps, approves, n - 1);
      assert Enabled(worlds[n - 1], steps[n - 1]) && worlds[n] == Next(worlds[n - 1], steps[n - 1]);
      hide ApprovalsTraced, Next, Enabled, Promised;
      StepKeepsApprovals(worlds[n - 1], steps[n - 1], approves);
    }
  }

  lemma CausesNeedApproval(w: World, s: Signal, f: P.Fill, approves: Signal -> bool)
    requires Causes(w, s, f) && ApprovalsTraced(w, approves)
    ensures Orderable(s) && approves(s)
  {
    var d, o, e :| s in w.signals && d in w.decisions && o in w.orders && e in w.exec.filled
      && DecidedFrom(s, d) && OrderedFrom(d, o) && ExecutedFrom(o, e) && f == FillOf(e);
    var t :| t in w.signals && DecidedFrom(t, d) && approves(t);
    assert s == t;
  }

  /** A signal ends up as an applied fill in some run exactly when it names a user, a strategy and a symbol, asks for a
      positive quantity, and is approved by the evaluator. The signals of the strategy service name no user. */
  lemma SignalIsBookedIff(s: Signal, approves: Signal -> bool)
    ensures (exists w, f :: CanReach(approves, w) && f in T.Applied(w.portfolio) && Causes(w, s, f))
            <==> s.userID != "" && s.strategyID != "" && s.symbol != "" && s.quantity > 0.0 && approves(s)
  {
    if w, f :| CanReach(approves, w) && f in T.Applied(w.portfolio) && Causes(w, s, f) {
      var worlds, steps :| Behavior(worlds, steps) && Judged(steps, approves) && worlds[|steps|] == w;
      ApprovalsAlways(worlds, steps, approves, |steps|);
      hide Behavior, Causes, ApprovalsTraced;
      CausesNeedApproval(w, s, f, approves);
    }
    if Orderable(s) && approves(s) {
      EverySignalCanBeBooked(approves, s, 1.0);
      hide CanReach, Causes;
      var w, f :|
        CanReach(approves, w) && w.portfolio == [P.Filled(f)] && Causes(w, s, f) && Carries(s, f) && f.price == 1.0;
      OneEventIsApplied(f);
      assert f in T.Applied(w.portfolio);
    }
  }

  /** As the services are wired, nothing ever stores a portfolio snapshot, so the evaluator only sees new ones, and no
      policy makes it approve anything: no signal is ever booked. */
  lemma NewSnapshotsBookNothing(s: Signal, approves: Signal -> bool)
    requires forall t :: approves(t) ==> exists policy, price :: R.Approves(policy, R.NEW_SNAPSHOT, t.quantity, price)
    ensures !exists w, f :: CanReach(approves, w) && f in T.Applied(w.portfolio) && Causes(w, s, f)
  {
    SignalIsBookedIff(s, approves);
    hide CanReach, Causes;
    assert !approves(s) by {
      forall policy, price
        ensures !R.Approves(policy, R.NEW_SNAPSHOT, s.quantity, price)
      {
        R.ApprovableIff(R.NEW_SNAPSHOT, s.quantity, price);
      }
    }
  }
}
