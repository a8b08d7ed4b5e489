/** What a repeated client order ID does to the execution service. The repository answers with a copy of the
    stored row, the service submits that copy, and the reconciliation loop may fill the row meanwhile.
    Source: internal/application/execution/service.go, internal/infrastructure/execution_repository.go. */
module DuplicateClientIDs {
  import opened Wrappers
  import opened ExecutionLifecycle
  import opened ExecutionTheorems

  /** As Promised, but client order IDs may repeat. */
  predicate IdsPromised(s: State, step: Step) {
    match step
    case Deliver(e, newID) => e.quantity > 0.0 && (e.orderID !in s.processed ==> newID !in s.rows)
    case Poll(Some(fills)) => forall f :: f in fills ==> f.quantity >= 0.0
    case _ => true
  }

  ghost predicate DuplicatingBehavior(states: seq<State>, steps: seq<Step>) {
    Behavior(states, steps) && forall i :: 0 <= i < |steps| ==> IdsPromised(states[i], steps[i])
  }

  predicate SameExecution(a: Execution, b: Execution) {
    && a.id == b.id && a.orderID == b.orderID && a.clientOrderID == b.clientOrderID
    && a.user == b.user && a.symbol == b.symbol && a.side == b.side && a.original == b.original
  }

  /** What has been booked from fills. */
  predicate SameFills(a: Execution, b: Execution) {
    a.executed == b.executed && a.value == b.value && a.average == b.average && a.fees == b.fees
  }

  /** The row stays within the transition table, keeps what was booked from its fills and keeps its exchange ID. It may
      still end as failed, which the table permits from every live status. */
  ghost predicate KeepsRow(before: Execution, after: Execution) {
    && SameExecution(before, after) && SameFills(before, after)
    && (after.status == before.status || Reaches(before.status, after.status))
    && before.exchangeID in ["", after.exchangeID]
  }

  /** No fill was booked since the copy was taken. A refused submission finds the exchange ID of the copy, an accepted
      one a row that is not past submitted and that was either never accepted or accepted under the same ID. */
  predicate Undisturbed(row: Execution, draft: Execution, outcome: Outcome) {
    && SameFills(row, draft)
    && match outcome
       case Refused => row.exchangeID in ["", draft.exchangeID]
       case Accepted(exchangeID) =>
         (row.status == Created || row.status == Submitted) && row.exchangeID in ["", exchangeID]
  }

  /** A submission that finds the row as the exchange's answer would leave it. */
  predicate Repeats(row: Execution, draft: Execution, outcome: Outcome) {
    && SameFills(row, draft)
    && match outcome
       case Refused => row.status == Failed && row.exchangeID == draft.exchangeID
       case Accepted(exchangeID) => row.status == Submitted && row.exchangeID == exchangeID
  }

  // ------------------------------------------------------ what holds even so

  ghost predicate CopiesLag(copies: seq<Execution>, rows: map<string, Execution>) {
    && (forall e :: e in copies ==>
          && e.id in rows && SameExecution(e, rows[e.id]) && rows[e.id].executed <= e.executed <= e.original
          && (e.status == Submitted || e.status == PartialFilled))
    && (forall i, j :: 0 <= i < j < |copies| ==> copies[i].id != copies[j].id)
  }

  ghost predicate RowsKeyed(s: State) {
    forall k :: k in s.rows ==>
      s.rows[k].id == k && Live(s.rows[k].status) && s.rows[k].executed <= s.rows[k].original
  }

  ghost predicate DraftLags(s: State) {
    s.consumer.Working? ==>
      var d := s.consumer.draft;
      d.id in s.rows && SameExecution(d, s.rows[d.id]) && d.executed <= s.rows[d.id].executed
  }

  ghost predicate QueueLags(s: State) {
    match s.reconciler
    case Sleeping => true
    case Listed(copies) =>
      CopiesLag(copies, s.rows) && forall e :: e in copies ==> s.rows[e.id].status != PartialFilled
    case Polling(copies) => CopiesLag(copies, s.rows)
  }

  /** A draft never runs ahead of its row, and a row never runs ahead of the loop's copy of it. */
  ghost predicate LagInvariant(s: State) {
    RowsKeyed(s) && DraftLags(s) && QueueLags(s)
  }

  lemma DeliverKeepsLag(s: State, e: OrderEvent, newID: string)
    requires LagInvariant(s) && Enabled(s, Deliver(e, newID)) && IdsPromised(s, Deliver(e, newID))
    ensures LagInvariant(Delivered(s, e, newID))
  {
  }

  lemma FinishKeepsLag(s: State, outcome: Outcome, attempts: nat)
    requires LagInvariant(s) && Enabled(s, Finish(outcome, attempts))
    ensures LagInvariant(Finished(s, outcome, attempts))
  {
    var d := s.consumer.draft;
    assert Finished(s, outcome, attempts).rows == s.rows[d.id := Resolved(d, outcome, attempts)];
  }

  lemma ListKeepsLag(s: State, step: Step)
    requires LagInvariant(s) && Enabled(s, step) && (step.ListSubmitted? || step.ListPartial?)
    ensures LagInvariant(Next(s, step))
  {
    if step.ListPartial? {
      var queue := s.reconciler.submitted + step.rows;
      forall i, j | 0 <= i < j < |queue|
        ensures queue[i].id != queue[j].id
      {
        if i < |s.reconciler.submitted| <= j {
          assert queue[i] in s.reconciler.submitted && queue[j] in step.rows;
        }
      }
    }
  }

  lemma ApplyFillsRaises(e: Execution, fills: seq<FillRecord>)
    requires e.executed <= e.original && (forall f :: f in fills ==> f.quantity >= 0.0) && ApplyFills(e, fills).Some?
    ensures var next := ApplyFills(e, fills).value;
      SameExecution(e, next) && e.executed <= next.executed <= next.original && Live(next.status)
  {
    NonNegativeTotals(fills);
  }

  lemma PolledRowsLag(s: State, e: Execution, result: Option<seq<FillRecord>>)
    requires RowsKeyed(s) && DraftLags(s) && e.id in s.rows && SameExecution(e, s.rows[e.id])
    requires s.rows[e.id].executed <= e.executed <= e.original
    requires result.Some? ==> forall f :: f in result.value ==> f.quantity >= 0.0
    ensures RowsKeyed(Polled(s, e, result)) && DraftLags(Polled(s, e, result))
    ensures forall k :: k in s.rows && k != e.id ==>
      k in Polled(s, e, result).rows && Polled(s, e, result).rows[k] == s.rows[k]
  {
    if result.Some? && ApplyFills(e, result.value).Some? {
      ApplyFillsRaises(e, result.value);
    }
    hide ApplyFills;
  }

  lemma RestLags(queue: seq<Execution>, rows: map<string, Execution>, after: map<string, Execution>)
    requires queue != [] && CopiesLag(queue, rows)
    requires forall k :: k in rows && k != queue[0].id ==> k in after && after[k] == rows[k]
    ensures CopiesLag(queue[1..], after)
  {
    forall d | d in queue[1..]
      ensures d in queue && d.id != queue[0].id
    {
      var i :| 0 <= i < |queue| - 1 && queue[1..][i] == d;
      assert queue[i + 1] == d;
    }
  }

  lemma PollKeepsLag(s: State, result: Option<seq<FillRecord>>)
    requires LagInvariant(s) && Enabled(s, Poll(result)) && IdsPromised(s, Poll(result))
    ensures LagInvariant(Next(s, Poll(result)))
  {
    var queue := s.reconciler.queue;
    assert queue[0] in queue;
    PolledRowsLag(s, queue[0], result);
    RestLags(queue, s.rows, Polled(s, queue[0], result).rows);
    hide Polled, CopiesLag, SameExecution;
  }

  lemma LagIsKept(s: State, step: Step)
    requires LagInvariant(s) && Enabled(s, step) && IdsPromised(s, step)
    ensures LagInvariant(Next(s, step))
  {
    hide LagInvariant;
    match step {
      case Deliver(e, newID) => DeliverKeepsLag(s, e, newID);
      case Finish(outcome, attempts) => FinishKeepsLag(s, outcome, attempts);
      case Poll(result) => PollKeepsLag(s, result);
      case _ => ListKeepsLag(s, step);
    }
  }

  lemma {:induction false} LagAlways(states: seq<State>, steps: seq<Step>, n: nat)
    requires DuplicatingBehavior(states, steps) && n <= |steps|
    ensures LagInvariant(states[n])
  {
    if n > 0 {
      LagAlways(states, steps, n - 1);
      hide LagInvariant, Next, Enabled;
      LagIsKept(states[n - 1], steps[n - 1]);
    }
  }

  // ------------------------------------------------------------- the exact condition

  lemma ResolvedKeepsRowIff(row: Execution, draft: Execution, outcome: Outcome, attempts: nat)
    requires SameExecution(draft, row) && Live(row.status)
    ensures KeepsRow(row, Resolved(draft, outcome, attempts)) <==> Undisturbed(row, draft, outcome)
  {
    var after := Resolved(draft, outcome, attempts).status;
    if Reaches(row.status, after) {
      ReachesRises(row.status, after);
    }
    if CanTransition(row.status, after) || (row.status == Created && after == Submitted) {
      DirectReaches(row.status, after);
    }
    hide Reaches;
  }

  /** A client order ID is an idempotency key, that is, the end of a submission changes nothing of the row but its count
      of attempts, exactly when nothing was filled since the draft was taken and the exchange repeats itself: it
      accepts a row that is still submitted under the same exchange ID, or refuses one that has failed. */
  lemma DuplicateClientIff(states: seq<State>, steps: seq<Step>, n: nat)
    requires DuplicatingBehavior(states, steps) && n < |steps| && steps[n].Finish?
    ensures var s := states[n]; var draft := s.consumer.draft;
      && draft.id in s.rows && draft.id in states[n + 1].rows
      && (states[n + 1].rows[draft.id] == s.rows[draft.id].(attempts := states[n + 1].rows[draft.id].attempts)
          <==> Repeats(s.rows[draft.id], draft, steps[n].outcome))
  {
    LagAlways(states, steps, n);
    assert Enabled(states[n], steps[n]) && states[n + 1] == Next(states[n], steps[n]);
  }

  /** Whatever ran between the copy and the end of its submission, the write-back leaves the row its lifecycle, its
      fills and its exchange ID exactly when it finds the row undisturbed. */
  lemma WriteBackKeepsRowIff(states: seq<State>, steps: seq<Step>, n: nat)
    requires DuplicatingBehavior(states, steps) && n < |steps| && steps[n].Finish?
    ensures var s := states[n]; var draft := s.consumer.draft;
      && draft.id in s.rows && draft.id in states[n + 1].rows
      && (KeepsRow(s.rows[draft.id], states[n + 1].rows[draft.id])
          <==> Undisturbed(s.rows[draft.id], draft, steps[n].outcome))
  {
    LagAlways(states, steps, n);
    var s, step := states[n], steps[n];
    assert Enabled(s, step) && states[n + 1] == Next(s, step);
    ResolvedKeepsRowIff(s.rows[s.consumer.draft.id], s.consumer.draft, step.outcome, step.attempts);
    hide KeepsRow, Undisturbed;
  }

  // ----------------------------------------------------- three runs that break the row

  ghost predicate CanReach(s: State) {
    exists states, steps :: DuplicatingBehavior(states, steps) && states[|steps|] == s
  }

  lemma Reached(s: State, step: Step, next: State)
    requires CanReach(s) && Enabled(s, step) && IdsPromised(s, step) && next == Next(s, step)
    ensures CanReach(next)
  {
    var states, steps :| DuplicatingBehavior(states, steps) && states[|steps|] == s;
    hide Enabled, IdsPromised, Next;
    assert DuplicatingBehavior(states + [next], steps + [step]);
    assert (states + [next])[|steps + [step]|] == next;
  }

  const ONE_FILL := FillRecord(1.0, 5.0, 0.0)
  const SUBMITTED_ROW :=
    Execution("e1", "o1", "c", "x1", "u", "BTCUSDT", "BUY", 1.0, 0.0, 0.0, 0.0, 0.0, Submitted, 1)
  const FILLED_ROW :=
    Execution("e1", "o1", "c", "x1", "u", "BTCUSDT", "BUY", 1.0, 1.0, 5.0, 5.0, 0.0, Filled, 1)

  function PollingState(processed: set<string>, consumer: Consumer): State {
    State(processed, map["e1" := SUBMITTED_ROW], consumer, Polling([SUBMITTED_ROW]), [Call("o1", "c")], [],
          map["e1" := []])
  }

  function FilledState(processed: set<string>, consumer: Consumer): State {
    State(processed, map["e1" := FILLED_ROW], consumer, Sleeping, [Call("o1", "c")], [FILLED_ROW],
          map["e1" := [ONE_FILL]])
  }

  function SubmittedState(reconciler: Reconciler): State {
    State({"o1"}, map["e1" := SUBMITTED_ROW], Waiting, reconciler, [Call("o1", "c")], [], map["e1" := []])
  }

  lemma FirstOrderIsSubmitted()
    ensures CanReach(SubmittedState(Sleeping))
  {
    var none: seq<Step> := [];
    assert DuplicatingBehavior([INITIAL], none) && [INITIAL][|none|] == INITIAL;
    hide CanReach;
    var e := OrderEvent("o1", "c", "u", "BTCUSDT", "BUY", 1.0);
    var draft := NewExecution(e, "e1");
    var s := State({"o1"}, map["e1" := draft], Working("o1", draft), Sleeping, [], [], map["e1" := []]);
    Reached(INITIAL, Deliver(e, "e1"), s);
    Reached(s, Finish(Accepted("x1"), 1), SubmittedState(Sleeping));
  }

  lemma FirstOrderIsPolled()
    ensures CanReach(PollingState({"o1"}, Waiting))
  {
    FirstOrderIsSubmitted();
    hide CanReach;
    var rows := map["e1" := SUBMITTED_ROW];
    var none: seq<Execution> := [];
    assert Enumerates([SUBMITTED_ROW], rows, Submitted) && Enumerates(none, rows, PartialFilled);
    Reached(SubmittedState(Sleeping), ListSubmitted([SUBMITTED_ROW]), SubmittedState(Listed([SUBMITTED_ROW])));
    assert [SUBMITTED_ROW] + none == [SUBMITTED_ROW];
    Reached(SubmittedState(Listed([SUBMITTED_ROW])), ListPartial(none), PollingState({"o1"}, Waiting));
  }

  lemma OneFillFills()
    ensures ApplyFills(SUBMITTED_ROW, [ONE_FILL]) == Some(FILLED_ROW)
  {
    var noFills: seq<FillRecord> := [];
    assert [ONE_FILL] == noFills + [ONE_FILL];
    assert Quantity([ONE_FILL]) == 1.0 && Notional([ONE_FILL]) == 5.0 && Fees([ONE_FILL]) == 0.0;
  }

  lemma PollFills(processed: set<string>, consumer: Consumer)
    requires CanReach(PollingState(processed, consumer))
    ensures CanReach(FilledState(processed, consumer))
  {
    hide CanReach, ApplyFills;
    var s := PollingState(processed, consumer);
    OneFillFills();
    assert [] + [ONE_FILL] == [ONE_FILL];
    assert [SUBMITTED_ROW][1..] == [];
    Reached(s, Poll(Some([ONE_FILL])), FilledState(processed, consumer));
  }

  const SECOND_ORDER := OrderEvent("o2", "c", "u", "BTCUSDT", "BUY", 1.0)

  /** A filled order is reopened by a later order that repeats its client order ID. */
  lemma FilledOrderIsReopened() returns (s: State)
    ensures CanReach(s) && Enabled(s, Finish(Accepted("x2"), 1)) && "e1" in s.rows && s.rows["e1"].status == Filled
    ensures var t := Next(s, Finish(Accepted("x2"), 1)); "e1" in t.rows && t.rows["e1"].status == Submitted
  {
    FirstOrderIsPolled();
    hide CanReach;
    PollFills({"o1"}, Waiting);
    s := FilledState({"o1", "o2"}, Working("o2", FILLED_ROW));
    assert FilledState({"o1"}, Waiting).rows["e1"].clientOrderID == "c";
    Reached(FilledState({"o1"}, Waiting), Deliver(SECOND_ORDER, "e2"), s);
  }

  /** A fill that arrives while the copy is being submitted is lost: the row falls back to nothing executed. */
  lemma FillInFlightIsLost() returns (s: State)
    ensures CanReach(s) && Enabled(s, Finish(Accepted("x2"), 1)) && "e1" in s.rows && s.rows["e1"].executed == 1.0
    ensures var t := Next(s, Finish(Accepted("x2"), 1));
      "e1" in t.rows && t.rows["e1"].status == Submitted && t.rows["e1"].executed == 0.0
  {
    FirstOrderIsPolled();
    hide CanReach;
    assert PollingState({"o1"}, Waiting).rows["e1"].clientOrderID == "c";
    Reached(PollingState({"o1"}, Waiting), Deliver(SECOND_ORDER, "e2"),
            PollingState({"o1", "o2"}, Working("o2", SUBMITTED_ROW)));
    PollFills({"o1", "o2"}, Working("o2", SUBMITTED_ROW));
    s := FilledState({"o1", "o2"}, Working("o2", SUBMITTED_ROW));
  }

  /** With nothing filled at all, the row is moved to another exchange ID, and the first one is polled no more. */
  lemma ExchangeIDIsReplaced() returns (s: State)
    ensures CanReach(s) && Enabled(s, Finish(Accepted("x2"), 1)) && "e1" in s.rows
    ensures s.rows["e1"].status == Submitted && s.rows["e1"].exchangeID == "x1"
    ensures var t := Next(s, Finish(Accepted("x2"), 1));
      "e1" in t.rows && t.rows["e1"] == s.rows["e1"].(exchangeID := "x2")
  {
    FirstOrderIsPolled();
    hide CanReach;
    s := PollingState({"o1", "o2"}, Working("o2", SUBMITTED_ROW));
    assert PollingState({"o1"}, Waiting).rows["e1"].clientOrderID == "c";
    Reached(PollingState({"o1"}, Waiting), Deliver(SECOND_ORDER, "e2"), s);
  }
}
