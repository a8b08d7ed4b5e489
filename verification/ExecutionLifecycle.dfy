/** The execution service as a state machine: one consumer of order.created, one reconciliation
    loop, and the repository they share, interleaved at their lock boundaries.
    Source: internal/application/execution/service.go, internal/domain/execution.go,
    internal/infrastructure/execution_repository.go. */
module ExecutionLifecycle {
  import opened Wrappers

  const MAX_RETRIES: nat := 3

  datatype Status =
    | Created | Submitting | Submitted | PartialFilled | Filled
    | Canceling | Canceled | Failed | Closed

  predicate CanTransition(from: Status, to: Status) {
    match from
    case Created => to == Submitting || to == Failed
    case Submitting => to == Submitted || to == Failed
    case Submitted => to == PartialFilled || to == Filled || to == Canceling || to == Failed
    case PartialFilled => to == Filled || to == Canceling || to == Closed || to == Failed
    case Filled => to == Closed || to == Failed
    case Canceling => to == Canceled || to == Failed
    case _ => false
  }

  ghost predicate IsPath(path: seq<Status>) {
    path != [] && forall i :: 0 <= i < |path| - 1 ==> CanTransition(path[i], path[i + 1])
  }

  /** The transitive closure of CanTransition. */
  ghost predicate Reaches(from: Status, to: Status) {
    exists path :: IsPath(path) && |path| > 1 && path[0] == from && path[|path| - 1] == to
  }

  datatype FillRecord = FillRecord(quantity: real, price: real, fee: real)

  datatype Execution = Execution(
    id: string,
    orderID: string,
    clientOrderID: string,
    exchangeID: string,
    user: string,
    symbol: string,
    side: string,
    original: real,
    executed: real,
    value: real,
    average: real,
    fees: real,
    status: Status,
    attempts: nat)

  datatype OrderEvent = OrderEvent(
    orderID: string,
    clientOrderID: string,
    user: string,
    symbol: string,
    side: string,
    quantity: real)

  /** NewExecution with the ID given to it. */
  function NewExecution(e: OrderEvent, id: string): Execution {
    Execution(id, e.orderID, e.clientOrderID, "", e.user, e.symbol, e.side,
              e.quantity, 0.0, 0.0, 0.0, 0.0, Created, 0)
  }

  // ----------------------------------------------------------------- applying fills

  function Quantity(fills: seq<FillRecord>): real {
    if fills == [] then 0.0 else Quantity(fills[..|fills| - 1]) + fills[|fills| - 1].quantity
  }

  function Notional(fills: seq<FillRecord>): real {
    if fills == [] then 0.0
    else Notional(fills[..|fills| - 1]) + fills[|fills| - 1].quantity * fills[|fills| - 1].price
  }

  function Fees(fills: seq<FillRecord>): real {
    if fills == [] then 0.0 else Fees(fills[..|fills| - 1]) + fills[|fills| - 1].fee
  }

  /** applyFills up to the transition: totals grow by the whole list, the quantity is capped. */
  function Accumulated(e: Execution, fills: seq<FillRecord>): Execution {
    var total := e.executed + Quantity(fills);
    var executed := if total >= e.original then e.original else total;
    var value := e.value + Notional(fills);
    e.(executed := executed, value := value, fees := e.fees + Fees(fills),
       average := if executed > 0.0 then value / executed else e.average)
  }

  function StatusAfter(e: Execution, fills: seq<FillRecord>): Status {
    if e.executed + Quantity(fills) >= e.original then Filled else PartialFilled
  }

  /** applyFills: None when TransitionTo refuses, and the copy is thrown away. */
  function ApplyFills(e: Execution, fills: seq<FillRecord>): Option<Execution> {
    var next := StatusAfter(e, fills);
    if CanTransition(e.status, next) then Some(Accumulated(e, fills).(status := next)) else None
  }

  // -------------------------------------------------------------- the state machine

  datatype Consumer = Waiting | Working(order: string, draft: Execution)

  datatype Reconciler = Sleeping | Listed(submitted: seq<Execution>) | Polling(queue: seq<Execution>)

  datatype Call = Call(order: string, clientOrderID: string)

  datatype State = State(
    processed: set<string>,
    rows: map<string, Execution>,
    consumer: Consumer,
    reconciler: Reconciler,
    calls: seq<Call>,
    filled: seq<Execution>,
    accepted: map<string, seq<FillRecord>>)

  const INITIAL := State({}, map[], Waiting, Sleeping, [], [], map[])

  datatype Outcome = Accepted(exchangeID: string) | Refused

  datatype Step =
    | Deliver(event: OrderEvent, newID: string)
    | Finish(outcome: Outcome, attempts: nat)
    | ListSubmitted(rows: seq<Execution>)
    | ListPartial(rows: seq<Execution>)
    | Poll(result: Option<seq<FillRecord>>)

  /** ListByStatus: copies of the rows with that status, each once, in any order. */
  ghost predicate Enumerates(copies: seq<Execution>, rows: map<string, Execution>, status: Status) {
    && (forall e :: e in copies ==> e.status == status && e.id in rows && rows[e.id] == e)
    && (forall k :: k in rows && rows[k].status == status ==> rows[k] in copies)
    && (forall i, j :: 0 <= i < j < |copies| ==> copies[i].id != copies[j].id)
  }

  ghost predicate Enabled(s: State, step: Step) {
    match step
    case Deliver(_, _) => s.consumer.Waiting?
    case Finish(_, attempts) => s.consumer.Working? && 1 <= attempts <= MAX_RETRIES + 1
    case ListSubmitted(rows) => s.reconciler.Sleeping? && Enumerates(rows, s.rows, Submitted)
    case ListPartial(rows) => s.reconciler.Listed? && Enumerates(rows, s.rows, PartialFilled)
    case Poll(_) => s.reconciler.Polling? && s.reconciler.queue != []
  }

  /** The row that repository.Create finds under the same client order ID, if any. */
  predicate StoresClient(rows: map<string, Execution>, clientOrderID: string) {
    exists k :: k in rows && rows[k].clientOrderID == clientOrderID
  }

  ghost function StoredClient(rows: map<string, Execution>, clientOrderID: string): (k: string)
    requires StoresClient(rows, clientOrderID)
    ensures k in rows && rows[k].clientOrderID == clientOrderID
  {
    var k :| k in rows && rows[k].clientOrderID == clientOrderID; k
  }

  /** handleOrderCreated up to the submission. A duplicate client order ID makes the draft a copy of
      the stored row, and the service goes on to submit that copy. */
  ghost function Delivered(s: State, e: OrderEvent, newID: string): State {
    if e.orderID in s.processed then s
    else
      var s := s.(processed := s.processed + {e.orderID});
      if StoresClient(s.rows, e.clientOrderID) then
        s.(consumer := Working(e.orderID, s.rows[StoredClient(s.rows, e.clientOrderID)]))
      else
        var draft := NewExecution(e, newID);
        s.(rows := s.rows[newID := draft], consumer := Working(e.orderID, draft), accepted := s.accepted[newID := []])
  }

  /** The field assignments of submitExecution. */
  function Resolved(draft: Execution, outcome: Outcome, attempts: nat): Execution {
    match outcome
    case Accepted(exchangeID) => draft.(exchangeID := exchangeID, status := Submitted, attempts := attempts)
    case Refused => draft.(status := Failed)
  }

  /** submitExecution after the last exchange call: assignments and Update as one step. */
  function Finished(s: State, outcome: Outcome, attempts: nat): State
    requires s.consumer.Working?
  {
    var draft := s.consumer.draft;
    var s := s.(consumer := Waiting,
                calls := s.calls + seq(attempts, i => Call(s.consumer.order, draft.clientOrderID)));
    if draft.id in s.rows then s.(rows := s.rows[draft.id := Resolved(draft, outcome, attempts)]) else s
  }

  /** One iteration of the reconciliation loop, on a copy taken when the rows were listed. */
  function Polled(s: State, e: Execution, result: Option<seq<FillRecord>>): State {
    if e.exchangeID == "" || result.None? || result.value == [] || e.id !in s.rows then s
    else
      match ApplyFills(e, result.value)
      case None => s
      case Some(next) =>
        s.(rows := s.rows[e.id := next],
           filled := if next.status == Filled then s.filled + [next] else s.filled,
           accepted := s.accepted[e.id := AcceptedBy(s, e.id) + result.value])
  }

  function AcceptedBy(s: State, id: string): seq<FillRecord> {
    if id in s.accepted then s.accepted[id] else []
  }

  function Resting(queue: seq<Execution>): Reconciler {
    if queue == [] then Sleeping else Polling(queue)
  }

  ghost function Next(s: State, step: Step): State
    requires Enabled(s, step)
  {
    match step
    case Deliver(e, newID) => Delivered(s, e, newID)
    case Finish(outcome, attempts) => Finished(s, outcome, attempts)
    case ListSubmitted(rows) => s.(reconciler := Listed(rows))
    case ListPartial(rows) => s.(reconciler := Resting(s.reconciler.submitted + rows))
    case Poll(result) =>
      var queue := s.reconciler.queue;
      Polled(s, queue[0], result).(reconciler := Resting(queue[1..]))
  }

  ghost predicate Behavior(states: seq<State>, steps: seq<Step>) {
    && |states| == |steps| + 1
    && states[0] == INITIAL
    && forall i :: 0 <= i < |steps| ==> Enabled(states[i], steps[i]) && states[i + 1] == Next(states[i], steps[i])
  }

  /** What the environment promises: generated IDs and the client order IDs of distinct orders are
      new, ordered quantities are positive and fills are not negative. */
  predicate Promised(s: State, step: Step) {
    match step
    case Deliver(e, newID) =>
      e.quantity > 0.0
      && (e.orderID !in s.processed ==> newID !in s.rows && !StoresClient(s.rows, e.clientOrderID))
    case Poll(Some(fills)) => forall f :: f in fills ==> f.quantity >= 0.0
    case _ => true
  }

  ghost predicate PromisedBehavior(states: seq<State>, steps: seq<Step>) {
    Behavior(states, steps) && forall i :: 0 <= i < |steps| ==> Promised(states[i], steps[i])
  }

  // -------------------------------------------------------------------- invariants

  predicate Live(status: Status) {
    status == Created || status == Submitted || status == PartialFilled || status == Filled || status == Failed
  }

  /** What a stored row says about the fills accepted for it. */
  predicate Accounts(e: Execution, fills: seq<FillRecord>) {
    && e.original > 0.0
    && Quantity(fills) >= 0.0
    && e.executed == (if Quantity(fills) >= e.original then e.original else Quantity(fills))
    && e.value == Notional(fills)
    && e.fees == Fees(fills)
    && (e.executed > 0.0 ==> e.average == e.value / e.executed)
    && (e.executed == 0.0 ==> e.value == 0.0)
    && (e.status == Filled <==> e.executed == e.original)
    && (e.status == Created || e.status == Submitted || e.status == Failed ==> fills == [])
    && (forall f :: f in fills ==> f.quantity >= 0.0)
  }

  predicate RowsFine(s: State) {
    forall k :: k in s.rows ==>
      s.rows[k].id == k && Live(s.rows[k].status) && Accounts(s.rows[k], AcceptedBy(s, k))
  }

  predicate DraftIsStored(s: State) {
    s.consumer.Working? ==>
      var d := s.consumer.draft;
      d.id in s.rows && s.rows[d.id] == d && d.status == Created
  }

  /** No copy in the hands of the reconciliation loop is ever stale. */
  predicate CopiesAreCurrent(copies: seq<Execution>, rows: map<string, Execution>) {
    && (forall e :: e in copies ==>
          e.id in rows && rows[e.id] == e && (e.status == Submitted || e.status == PartialFilled))
    && (forall i, j :: 0 <= i < j < |copies| ==> copies[i].id != copies[j].id)
  }

  predicate ReconcilerIsCurrent(s: State) {
    match s.reconciler
    case Sleeping => true
    case Listed(copies) => CopiesAreCurrent(copies, s.rows) && forall e :: e in copies ==> e.status == Submitted
    case Polling(copies) => CopiesAreCurrent(copies, s.rows)
  }

  /** execution.filled has been published once for every filled row and for no other. */
  predicate FilledOnce(s: State) {
    && (forall e :: e in s.filled ==> e.id in s.rows && s.rows[e.id] == e && e.status == Filled)
    && (forall k :: k in s.rows && s.rows[k].status == Filled ==> s.rows[k] in s.filled)
    && (forall i, j :: 0 <= i < j < |s.filled| ==> s.filled[i].id != s.filled[j].id)
  }

  predicate Invariant(s: State) {
    RowsFine(s) && DraftIsStored(s) && ReconcilerIsCurrent(s) && FilledOnce(s)
  }
}
