/** Orders as values: their lifecycle, and what every run of create, fill, cancel and transition keeps.
    Source: internal/domain/order.go, internal/application/order/{service,state_machine,validator}.go. */
module OrderLifecycle {
  import opened Wrappers

  datatype Status = Created | Submitted | Filled | PartialFilled | Canceled | Rejected | Closed

  datatype Side = Buy | Sell

  datatype Order = Order(
    id: string, clientOrderID: string, correlationID: string,
    userID: string, strategyID: string, symbol: string, side: Side, quantity: real,
    signalID: string, riskDecisionID: string,
    executed: real, value: real, average: real, fees: real, status: Status, cancelReason: string)

  /** The arguments of CreateOrder. */
  datatype Request = Request(
    userID: string, strategyID: string, symbol: string, side: Side, quantity: real,
    signalID: string, riskDecisionID: string)

  predicate CanTransition(from: Status, to: Status) {
    match from
    case Created => to in {Submitted, Canceled, Rejected}
    case Submitted => to in {Filled, PartialFilled, Canceled, Rejected}
    case PartialFilled => to in {Filled, Canceled}
    case _ => false
  }

  predicate IsFinal(status: Status) {
    status in {Filled, Canceled, Rejected, Closed}
  }

  /** How many more times the status can change. */
  function Rank(status: Status): nat {
    match status
    case Created => 3
    case Submitted => 2
    case PartialFilled => 1
    case _ => 0
  }

  /** The reflexive and transitive closure of CanTransition. */
  predicate Reaches(from: Status, to: Status)
    decreases Rank(from)
  {
    from == to || exists mid :: CanTransition(from, mid) && Reaches(mid, to)
  }

  lemma {:induction false} ReachesOneMore(from: Status, mid: Status, to: Status)
    requires Reaches(from, mid) && CanTransition(mid, to)
    ensures Reaches(from, to)
    decreases Rank(from)
  {
    if from == mid {
      assert Reaches(to, to);
    } else {
      var next :| CanTransition(from, next) && Reaches(next, mid);
      ReachesOneMore(next, mid, to);
    }
  }

  function NewOrder(request: Request, id: string, clientOrderID: string, correlationID: string): Order {
    Order(id, clientOrderID, correlationID, request.userID, request.strategyID, request.symbol, request.side,
          request.quantity, request.signalID, request.riskDecisionID, 0.0, 0.0, 0.0, 0.0, Created, "")
  }

  /** ValidateOrderCreation for the market orders that the service makes. */
  predicate ValidCreation(request: Request) {
    request.userID != "" && request.strategyID != "" && request.symbol != "" && request.quantity > 0.0
  }

  predicate ValidFill(order: Order, executed: real, average: real, fees: real) {
    0.0 <= executed <= order.quantity && average > 0.0 && fees >= 0.0
  }

  /** ValidateCancellation is stricter than CanTransition: a partly filled order is refused. */
  predicate ValidCancellation(order: Order) {
    order.status in {Created, Submitted}
  }

  /** TransitionTo, and the reason that the state machine stores. */
  function Transitioned(order: Order, newStatus: Status, reason: string): Order {
    var executed := if newStatus == Filled then order.quantity else order.executed;
    var moved := order.(status := newStatus, executed := executed);
    if newStatus in {Canceled, Rejected} then moved.(cancelReason := reason) else moved
  }

  /** UpdateOrderFill overwrites the quantity that the transition has just set. */
  function FillRecorded(order: Order, executed: real, average: real, fees: real): Order {
    var recorded := order.(executed := executed, average := average, fees := fees);
    if executed > 0.0 then recorded.(value := executed * average) else recorded
  }

  datatype Op =
    | Create(request: Request, id: string, clientOrderID: string, correlationID: string)
    | Fill(id: string, executed: real, average: real, fees: real, newStatus: Status)
    | Cancel(id: string, reason: string)
    | Transition(id: string, newStatus: Status, reason: string)

  type Store = map<string, Order>

  /** What the operation makes of the order it names; None when it is refused. */
  function Changed(order: Order, op: Op): Option<Order> {
    match op
    case Create(_, _, _, _) => None
    case Fill(_, executed, average, fees, newStatus) =>
      if ValidFill(order, executed, average, fees) && CanTransition(order.status, newStatus)
      then Some(FillRecorded(Transitioned(order, newStatus, ""), executed, average, fees)) else None
    case Cancel(_, reason) =>
      if ValidCancellation(order) then Some(Transitioned(order, Canceled, reason)) else None
    case Transition(_, newStatus, reason) =>
      if CanTransition(order.status, newStatus) then Some(Transitioned(order, newStatus, reason)) else None
  }

  predicate Succeeds(store: Store, op: Op) {
    if op.Create? then ValidCreation(op.request)
    else op.id in store && Changed(store[op.id], op).Some?
  }

  function Apply(store: Store, op: Op): Store {
    if !Succeeds(store, op) then store
    else if op.Create? then store[op.id := NewOrder(op.request, op.id, op.clientOrderID, op.correlationID)]
    else store[op.id := Changed(store[op.id], op).value]
  }

  /** The stored orders after a run of operations. */
  function After(ops: seq<Op>): Store {
    if ops == [] then map[] else Apply(After(ops[..|ops| - 1]), ops[|ops| - 1])
  }

  /** Every new order gets IDs that no other order ever gets. */
  predicate FreshIds(ops: seq<Op>) {
    forall i, j :: 0 <= i < j < |ops| && ops[i].Create? && ops[j].Create? ==>
      ops[i].id != ops[j].id && ops[i].clientOrderID != ops[j].clientOrderID
  }

  // ------------------------------------------------------------------- one operation

  predicate SameIdentity(a: Order, b: Order) {
    && a.id == b.id && a.clientOrderID == b.clientOrderID && a.correlationID == b.correlationID
    && a.userID == b.userID && a.strategyID == b.strategyID && a.symbol == b.symbol && a.side == b.side
    && a.quantity == b.quantity && a.signalID == b.signalID && a.riskDecisionID == b.riskDecisionID
  }

  predicate Sound(order: Order) {
    && order.quantity > 0.0 && 0.0 <= order.executed <= order.quantity
    && order.fees >= 0.0 && order.average >= 0.0 && order.value >= 0.0
    && order.status != Closed
  }

  lemma NonnegativeProduct(x: real, y: real)
    requires x >= 0.0 && y >= 0.0
    ensures x * y >= 0.0
  {
  }

  /** A successful operation takes one step of the lifecycle and keeps who the order is. */
  lemma ChangedKeeps(order: Order, op: Op)
    requires Changed(order, op).Some?
    ensures var next := Changed(order, op).value;
      && SameIdentity(order, next)
      && CanTransition(order.status, next.status) && Rank(next.status) < Rank(order.status)
      && (Sound(order) ==> Sound(next))
  {
    if op.Fill? {
      NonnegativeProduct(op.executed, op.average);
    }
  }

  /** UpdateOrderFill to Filled leaves a fully executed order exactly when it reports the whole quantity;
      TransitionOrder always does. */
  lemma FilledInFullIff(order: Order, op: Op)
    requires Changed(order, op).Some? && Changed(order, op).value.status == Filled
    ensures var next := Changed(order, op).value;
      next.executed == next.quantity <==> op.Transition? || op.executed == order.quantity
  {
  }

  // ------------------------------------------------------------------------ all runs

  ghost predicate CreatedBy(order: Order, op: Op) {
    && op.Create? && ValidCreation(op.request)
    && order.id == op.id && order.clientOrderID == op.clientOrderID && order.correlationID == op.correlationID
    && order.userID == op.request.userID && order.strategyID == op.request.strategyID
    && order.symbol == op.request.symbol && order.side == op.request.side && order.quantity == op.request.quantity
    && order.signalID == op.request.signalID && order.riskDecisionID == op.request.riskDecisionID
  }

  /** Every stored order carries what one call of the run asked for, under the IDs that were generated for it. */
  lemma {:induction false} Origin(ops: seq<Op>, id: string) returns (i: nat)
    requires id in After(ops)
    ensures i < |ops| && ops[i].id == id && CreatedBy(After(ops)[id], ops[i])
  {
    var front, last := ops[..|ops| - 1], ops[|ops| - 1];
    if last.id == id && Succeeds(After(front), last) {
      if last.Create? {
        i := |ops| - 1;
      } else {
        ChangedKeeps(After(front)[id], last);
        i := Origin(front, id);
      }
    } else {
      i := Origin(front, id);
    }
  }

  lemma CreatesAnew(ops: seq<Op>)
    requires FreshIds(ops) && ops != [] && ops[|ops| - 1].Create?
    ensures ops[|ops| - 1].id !in After(ops[..|ops| - 1])
  {
    var front, last := ops[..|ops| - 1], ops[|ops| - 1];
    if last.id in After(front) {
      var i := Origin(front, last.id);
    }
  }

  /** In every reachable store the orders are keyed by ID, traceable to the call that made them, executed
      between nothing and their whole quantity, and never charged a negative fee. */
  lemma {:induction false} EveryOrderIsSound(ops: seq<Op>, id: string)
    requires id in After(ops)
    ensures After(ops)[id].id == id && Sound(After(ops)[id])
  {
    var front, last := ops[..|ops| - 1], ops[|ops| - 1];
    if id in After(front) {
      EveryOrderIsSound(front, id);
      if last.id == id && !last.Create? && Succeeds(After(front), last) {
        ChangedKeeps(After(front)[id], last);
      }
    }
  }

  /** No two stored orders share a client order ID. */
  lemma ClientIDsAreUnique(ops: seq<Op>, a: string, b: string)
    requires FreshIds(ops) && a in After(ops) && b in After(ops)
    requires After(ops)[a].clientOrderID == After(ops)[b].clientOrderID
    ensures a == b
  {
    var i := Origin(ops, a);
    var j := Origin(ops, b);
    assert i == j;
  }

  lemma {:induction false} StepKeepsOrder(ops: seq<Op>, id: string)
    requires FreshIds(ops) && ops != [] && id in After(ops[..|ops| - 1])
    ensures id in After(ops)
    ensures var was := After(ops[..|ops| - 1])[id]; var now := After(ops)[id];
      was == now || (ops[|ops| - 1].id == id && Changed(was, ops[|ops| - 1]) == Some(now))
  {
    if ops[|ops| - 1].Create? {
      CreatesAnew(ops);
    }
  }

  lemma {:induction false} OrderHistory(ops: seq<Op>, n: nat, id: string)
    requires FreshIds(ops) && n <= |ops| && id in After(ops[..n])
    ensures id in After(ops)
    ensures var was := After(ops[..n])[id]; var now := After(ops)[id];
      SameIdentity(was, now) && Reaches(was.status, now.status) && (was.status == now.status ==> was == now)
    ensures Rank(After(ops)[id].status) <= Rank(After(ops[..n])[id].status)
    decreases |ops|
  {
    if n == |ops| {
      assert ops[..n] == ops;
    } else {
      var front := ops[..|ops| - 1];
      assert front[..n] == ops[..n];
      OrderHistory(front, n, id);
      StepKeepsOrder(ops, id);
      var was, before, now := After(ops[..n])[id], After(front)[id], After(ops)[id];
      hide After;
      if before != now {
        ChangedKeeps(before, ops[|ops| - 1]);
        ReachesOneMore(was.status, before.status, now.status);
      }
    }
  }

  /** Over any run an order keeps its identity, and its status only moves along permitted transitions. */
  lemma LifecycleOfEveryOrder(ops: seq<Op>, n: nat, m: nat, id: string)
    requires FreshIds(ops) && n <= m <= |ops| && id in After(ops[..n])
    ensures id in After(ops[..m])
    ensures var was := After(ops[..n])[id]; var now := After(ops[..m])[id];
      SameIdentity(was, now) && Reaches(was.status, now.status)
  {
    assert ops[..m][..n] == ops[..n];
    OrderHistory(ops[..m], n, id);
  }

  /** An order in a final state is never changed again, whatever calls follow. */
  lemma FinalOrdersNeverChange(ops: seq<Op>, n: nat, id: string)
    requires FreshIds(ops) && n <= |ops| && id in After(ops[..n]) && IsFinal(After(ops[..n])[id].status)
    ensures id in After(ops) && After(ops)[id] == After(ops[..n])[id]
  {
    OrderHistory(ops, n, id);
  }

  /** How often the order's status changed after it was created. */
  function StatusChanges(ops: seq<Op>, id: string): nat {
    if ops == [] then 0
    else
      var front := ops[..|ops| - 1];
      StatusChanges(front, id)
      + (if id in After(front) && id in After(ops) && After(front)[id].status != After(ops)[id].status then 1 else 0)
  }

  lemma {:induction false} ChangesUseRank(ops: seq<Op>, id: string)
    requires FreshIds(ops)
    ensures id !in After(ops) ==> StatusChanges(ops, id) == 0
    ensures id in After(ops) ==> StatusChanges(ops, id) + Rank(After(ops)[id].status) <= 3
  {
    if ops != [] {
      var front, last := ops[..|ops| - 1], ops[|ops| - 1];
      ChangesUseRank(front, id);
      if id in After(front) {
        StepKeepsOrder(ops, id);
        if last.id == id && Changed(After(front)[id], last).Some? {
          ChangedKeeps(After(front)[id], last);
        }
      }
    }
  }

  /** No order ever changes its status more than three times. */
  lemma AtMostThreeChanges(ops: seq<Op>, id: string)
    requires FreshIds(ops)
    ensures StatusChanges(ops, id) <= 3
  {
    ChangesUseRank(ops, id);
  }

  /** Whether a Filled order stays short of its quantity for ever was decided by the one call that filled it. */
  lemma FilledForeverInFullIff(ops: seq<Op>, n: nat, id: string)
    requires FreshIds(ops) && n < |ops| && id in After(ops[..n]) && id in After(ops[..n + 1])
    requires After(ops[..n])[id].status != Filled && After(ops[..n + 1])[id].status == Filled
    ensures id in After(ops) && After(ops)[id].status == Filled
    ensures var order := After(ops)[id];
      order.executed == order.quantity <==> ops[n].Transition? || (ops[n].Fill? && ops[n].executed == order.quantity)
  {
    assert ops[..n + 1][..n] == ops[..n];
    StepKeepsOrder(ops[..n + 1], id);
    FinalOrdersNeverChange(ops, n + 1, id);
    ChangedKeeps(After(ops[..n])[id], ops[n]);
    FilledInFullIff(After(ops[..n])[id], ops[n]);
  }

  /** "Filled means fully executed" fails: half of an order of two is reported with status Filled. */
  lemma FilledCanBeShort(request: Request)
    requires ValidCreation(request) && request.quantity == 2.0
    ensures var ops :=
      [Create(request, "o", "c", "k"), Transition("o", Submitted, ""), Fill("o", 1.0, 7.0, 0.0, Filled)];
      FreshIds(ops) && "o" in After(ops) && After(ops)["o"].status == Filled && After(ops)["o"].executed == 1.0
  {
    var ops := [Create(request, "o", "c", "k"), Transition("o", Submitted, ""), Fill("o", 1.0, 7.0, 0.0, Filled)];
    assert ops[..2][..1][..0] == [];
    assert ops[..2][..1] == [Create(request, "o", "c", "k")];
    assert After(ops[..2][..1]) == map["o" := NewOrder(request, "o", "c", "k")];
    assert After(ops[..2])["o"].status == Submitted;
  }

  // ------------------------------------------------------- what a stored order has recorded

  /** The last successful operation of a kind on the order. */
  function LastOf(ops: seq<Op>, id: string, kind: Op -> bool): Option<Op> {
    if ops == [] then None
    else
      var front, last := ops[..|ops| - 1], ops[|ops| - 1];
      if last.id == id && kind(last) && Succeeds(After(front), last) then Some(last) else LastOf(front, id, kind)
  }

  predicate IsFill(op: Op) { op.Fill? }
  predicate IsPositiveFill(op: Op) { op.Fill? && op.executed > 0.0 }
  predicate IsChange(op: Op) { !op.Create? }

  /** The status that a successful operation leads to. */
  function Target(op: Op): Status {
    match op
    case Create(_, _, _, _) => Created
    case Fill(_, _, _, _, newStatus) => newStatus
    case Cancel(_, _) => Canceled
    case Transition(_, newStatus, _) => newStatus
  }

  function ReasonOf(op: Op): string {
    match op
    case Cancel(_, reason) => reason
    case Transition(_, _, reason) => reason
    case _ => ""
  }

  /** The fields of an order, given the last fill, the last fill of a positive quantity and the last change at all. */
  predicate Recorded(order: Order, fill: Option<Op>, positive: Option<Op>, change: Option<Op>)
    requires fill.Some? ==> fill.value.Fill?
    requires positive.Some? ==> positive.value.Fill?
  {
    && order.average == (if fill.Some? then fill.value.average else 0.0)
    && order.fees == (if fill.Some? then fill.value.fees else 0.0)
    && order.value == (if positive.Some? then positive.value.executed * positive.value.average else 0.0)
    && order.status == (if change.Some? then Target(change.value) else Created)
    && order.executed == (if change.Some? && change.value.Transition? && change.value.newStatus == Filled
                          then order.quantity
                          else if fill.Some? then fill.value.executed else 0.0)
    && order.cancelReason == (if change.Some? && Target(change.value) in {Canceled, Rejected}
                              then ReasonOf(change.value) else "")
  }

  lemma {:induction false} LastOfIsOfKind(ops: seq<Op>, id: string, kind: Op -> bool)
    ensures LastOf(ops, id, kind).Some? ==> kind(LastOf(ops, id, kind).value) && LastOf(ops, id, kind).value.id == id
  {
    if ops != [] {
      LastOfIsOfKind(ops[..|ops| - 1], id, kind);
    }
  }

  lemma {:induction false} NothingBeforeCreation(ops: seq<Op>, id: string, kind: Op -> bool)
    requires id !in After(ops) && forall op :: kind(op) ==> !op.Create?
    ensures LastOf(ops, id, kind).None?
  {
    if ops != [] {
      NothingBeforeCreation(ops[..|ops| - 1], id, kind);
    }
  }

  lemma ChangedRecords(order: Order, op: Op, fill: Option<Op>, positive: Option<Op>, change: Option<Op>)
    requires fill.Some? ==> fill.value.Fill?
    requires positive.Some? ==> positive.value.Fill?
    requires Recorded(order, fill, positive, change) && Changed(order, op).Some?
    ensures Recorded(Changed(order, op).value, if IsFill(op) then Some(op) else fill,
                     if IsPositiveFill(op) then Some(op) else positive, Some(op))
  {
  }

  /** In every run a stored order shows what the calls on it reported: average price and fees are those of its last
      successful fill, the value that of its last positive one, the status and the reason those of its last change; the
      executed quantity is the last reported one unless TransitionOrder has filled the order. */
  lemma {:induction false} OrderIsItsHistory(ops: seq<Op>, id: string)
    requires FreshIds(ops) && id in After(ops)
    ensures LastOf(ops, id, IsFill).Some? ==> LastOf(ops, id, IsFill).value.Fill?
    ensures LastOf(ops, id, IsPositiveFill).Some? ==> LastOf(ops, id, IsPositiveFill).value.Fill?
    ensures Recorded(After(ops)[id], LastOf(ops, id, IsFill), LastOf(ops, id, IsPositiveFill),
                     LastOf(ops, id, IsChange))
  {
    LastOfIsOfKind(ops, id, IsFill);
    LastOfIsOfKind(ops, id, IsPositiveFill);
    var front, last := ops[..|ops| - 1], ops[|ops| - 1];
    if id in After(front) {
      OrderIsItsHistory(front, id);
      StepKeepsOrder(ops, id);
      if last.id == id && !last.Create? && Succeeds(After(front), last) {
        ChangedRecords(After(front)[id], last, LastOf(front, id, IsFill), LastOf(front, id, IsPositiveFill),
                       LastOf(front, id, IsChange));
      } else if last.Create? {
        CreatesAnew(ops);
      }
    } else {
      NothingBeforeCreation(front, id, IsFill);
      NothingBeforeCreation(front, id, IsPositiveFill);
      NothingBeforeCreation(front, id, IsChange);
    }
  }

  /** A successful fill is stored as it was reported. */
  lemma FillIsStored(ops: seq<Op>, fill: Op)
    requires fill.Fill? && Succeeds(After(ops), fill)
    ensures fill.id in After(ops + [fill])
    ensures var was, now := After(ops)[fill.id], After(ops + [fill])[fill.id];
      && now.executed == fill.executed && now.average == fill.average && now.fees == fill.fees
      && now.status == fill.newStatus
      && now.value == (if fill.executed > 0.0 then fill.executed * fill.average else was.value)
  {
    assert (ops + [fill])[..|ops|] == ops;
  }

  /** When a call on a stored order succeeds, from the calls before it: a cancellation while the last change, if there
      was one, was the submission; a fill once the order was submitted or partly filled and while no call has ended it,
      if its numbers are possible ones. */
  lemma SucceedsIff(ops: seq<Op>, id: string, reason: string, executed: real, average: real, fees: real)
    requires FreshIds(ops) && id in After(ops)
    ensures var change := LastOf(ops, id, IsChange);
      && (Succeeds(After(ops), Cancel(id, reason)) <==> change.None? || Target(change.value) == Submitted)
      && (Succeeds(After(ops), Fill(id, executed, average, fees, Filled)) <==>
            && change.Some? && Target(change.value) in {Submitted, PartialFilled}
            && 0.0 <= executed <= After(ops)[id].quantity && average > 0.0 && fees >= 0.0)
  {
    OrderIsItsHistory(ops, id);
    EveryOrderIsSound(ops, id);
    if LastOf(ops, id, IsChange).Some? {
      LastChangeIsNew(ops, id);
    }
  }

  lemma {:induction false} LastChangeIsNew(ops: seq<Op>, id: string)
    requires FreshIds(ops) && id in After(ops) && LastOf(ops, id, IsChange).Some?
    ensures Target(LastOf(ops, id, IsChange).value) != Created
  {
    var front, last := ops[..|ops| - 1], ops[|ops| - 1];
    if id in After(front) {
      StepKeepsOrder(ops, id);
      if last.id == id && Succeeds(After(front), last) && !last.Create? {
        assert After(ops)[id].status == Target(last);
      } else {
        LastChangeIsNew(front, id);
      }
    } else {
      NothingBeforeCreation(front, id, IsChange);
    }
  }
}
