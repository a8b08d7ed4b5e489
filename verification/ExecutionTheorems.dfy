/** What every interleaving of the execution service keeps. */
module ExecutionTheorems {
  import opened Wrappers
  import opened ExecutionLifecycle

  // ------------------------------------------------------------------ fill totals

  lemma {:induction false} TotalsConcat(a: seq<FillRecord>, b: seq<FillRecord>)
    ensures Quantity(a + b) == Quantity(a) + Quantity(b)
    ensures Notional(a + b) == Notional(a) + Notional(b)
    ensures Fees(a + b) == Fees(a) + Fees(b)
  {
    if b == [] {
      assert a + b == a;
    } else {
      var front := b[..|b| - 1];
      TotalsConcat(a, front);
      assert (a + b)[..|a + b| - 1] == a + front;
    }
  }

  lemma {:induction false} NonNegativeTotals(fills: seq<FillRecord>)
    requires forall f :: f in fills ==> f.quantity >= 0.0
    ensures Quantity(fills) >= 0.0
    ensures Quantity(fills) == 0.0 ==> Notional(fills) == 0.0
  {
    if fills != [] {
      NonNegativeTotals(fills[..|fills| - 1]);
    }
  }

  /** By how much a fill costs more than its quantity at that price. */
  function Excess(fill: FillRecord, price: real): real {
    fill.quantity * (fill.price - price)
  }

  function TotalExcess(fills: seq<FillRecord>, price: real): real {
    if fills == [] then 0.0 else TotalExcess(fills[..|fills| - 1], price) + Excess(fills[|fills| - 1], price)
  }

  lemma ExcessStep(notional: real, quantity: real, fill: FillRecord, price: real)
    ensures notional - price * quantity + Excess(fill, price)
            == notional + fill.quantity * fill.price - price * (quantity + fill.quantity)
  {
  }

  lemma {:induction false} TotalExcessIsDifference(fills: seq<FillRecord>, price: real)
    ensures TotalExcess(fills, price) == Notional(fills) - price * Quantity(fills)
  {
    if fills != [] {
      var front := fills[..|fills| - 1];
      TotalExcessIsDifference(front, price);
      ExcessStep(Notional(front), Quantity(front), fills[|fills| - 1], price);
      hide Excess;
    }
  }

  lemma ExcessSign(fill: FillRecord, price: real)
    requires fill.quantity >= 0.0
    ensures fill.quantity == 0.0 || price <= fill.price ==> Excess(fill, price) >= 0.0
    ensures fill.quantity == 0.0 || fill.price <= price ==> Excess(fill, price) <= 0.0
  {
  }

  lemma {:induction false} TotalExcessAbove(fills: seq<FillRecord>, price: real)
    requires forall f :: f in fills ==> f.quantity >= 0.0 && (f.quantity > 0.0 ==> price <= f.price)
    ensures TotalExcess(fills, price) >= 0.0
  {
    if fills != [] {
      TotalExcessAbove(fills[..|fills| - 1], price);
      assert fills[|fills| - 1] in fills;
      ExcessSign(fills[|fills| - 1], price);
      hide Excess;
    }
  }

  lemma {:induction false} TotalExcessBelow(fills: seq<FillRecord>, price: real)
    requires forall f :: f in fills ==> f.quantity >= 0.0 && (f.quantity > 0.0 ==> f.price <= price)
    ensures TotalExcess(fills, price) <= 0.0
  {
    if fills != [] {
      TotalExcessBelow(fills[..|fills| - 1], price);
      assert fills[|fills| - 1] in fills;
      ExcessSign(fills[|fills| - 1], price);
      hide Excess;
    }
  }

  lemma NotionalWithin(fills: seq<FillRecord>, lo: real, hi: real)
    requires forall f :: f in fills ==> f.quantity >= 0.0
    requires forall f :: f in fills && f.quantity > 0.0 ==> lo <= f.price <= hi
    ensures lo * Quantity(fills) <= Notional(fills) <= hi * Quantity(fills)
  {
    TotalExcessIsDifference(fills, lo);
    TotalExcessIsDifference(fills, hi);
    TotalExcessAbove(fills, lo);
    TotalExcessBelow(fills, hi);
    hide TotalExcess, Quantity, Notional;
  }

  // ------------------------------------------------------------------ applying fills

  lemma ApplyFillsAccounts(e: Execution, before: seq<FillRecord>, fills: seq<FillRecord>)
    requires Accounts(e, before) && (e.status == Submitted || e.status == PartialFilled)
    requires forall f :: f in fills ==> f.quantity >= 0.0
    requires ApplyFills(e, fills).Some?
    ensures Accounts(ApplyFills(e, fills).value, before + fills)
    ensures ApplyFills(e, fills).value.executed >= e.executed
  {
    TotalsConcat(before, fills);
    NonNegativeTotals(fills);
    NonNegativeTotals(before + fills);
  }

  // ------------------------------------------------------------- the invariant is kept

  lemma DeliverKeepsInvariant(s: State, e: OrderEvent, newID: string)
    requires Invariant(s) && Enabled(s, Deliver(e, newID)) && Promised(s, Deliver(e, newID))
    ensures Invariant(Delivered(s, e, newID))
  {
    hide Accounts;
    if e.orderID !in s.processed {
      var t := Delivered(s, e, newID);
      assert t.rows == s.rows[newID := NewExecution(e, newID)];
      NewExecutionAccounts(e, newID);
      forall k | k in t.rows
        ensures t.rows[k].id == k && Live(t.rows[k].status) && Accounts(t.rows[k], AcceptedBy(t, k))
      {
        if k != newID { assert AcceptedBy(t, k) == AcceptedBy(s, k); }
      }
    }
  }

  lemma NewExecutionAccounts(e: OrderEvent, newID: string)
    requires e.quantity > 0.0
    ensures Accounts(NewExecution(e, newID), [])
  {
  }

  lemma FinishKeepsInvariant(s: State, outcome: Outcome, attempts: nat)
    requires Invariant(s) && Enabled(s, Finish(outcome, attempts))
    ensures Invariant(Finished(s, outcome, attempts))
  {
    var t := Finished(s, outcome, attempts);
    var d := s.consumer.draft;
    assert t.rows == s.rows[d.id := Resolved(d, outcome, attempts)];
    assert Accounts(Resolved(d, outcome, attempts), AcceptedBy(s, d.id));
    hide Accounts;
    forall k | k in t.rows
      ensures t.rows[k].id == k && Live(t.rows[k].status) && Accounts(t.rows[k], AcceptedBy(t, k))
    {
      assert AcceptedBy(t, k) == AcceptedBy(s, k);
    }
  }

  lemma ListKeepsInvariant(s: State, step: Step)
    requires Invariant(s) && Enabled(s, step) && (step.ListSubmitted? || step.ListPartial?)
    ensures Invariant(Next(s, step))
  {
    hide Accounts;
    if step.ListPartial? {
      var queue := s.reconciler.submitted + step.rows;
      forall i, j | 0 <= i < j < |queue|
        ensures queue[i].id != queue[j].id
      {
        if i < |s.reconciler.submitted| <= j {
          assert queue[i] in s.reconciler.submitted && queue[j] in step.rows;
        }
      }
    }
  }

  lemma PolledRows(s: State, e: Execution, result: Option<seq<FillRecord>>)
    requires RowsFine(s) && e.id in s.rows && s.rows[e.id] == e
    requires e.status == Submitted || e.status == PartialFilled
    requires result.Some? ==> forall f :: f in result.value ==> f.quantity >= 0.0
    ensures RowsFine(Polled(s, e, result))
  {
    var t := Polled(s, e, result);
    if result.Some? && ApplyFills(e, result.value).Some? {
      ApplyFillsAccounts(e, AcceptedBy(s, e.id), result.value);
    }
    hide Accounts;
    forall k | k in t.rows
      ensures t.rows[k].id == k && Live(t.rows[k].status) && Accounts(t.rows[k], AcceptedBy(t, k))
    {
    }
  }

  lemma PolledFilled(s: State, e: Execution, result: Option<seq<FillRecord>>)
    requires FilledOnce(s) && e.id in s.rows && s.rows[e.id] == e
    requires e.status == Submitted || e.status == PartialFilled
    ensures FilledOnce(Polled(s, e, result))
  {
    var t := Polled(s, e, result);
    assert forall f :: f in s.filled ==> f.id != e.id;
    assert e.id in t.rows && t.rows[e.id].id == e.id;
    hide ApplyFills;
    assert t.rows == s.rows[e.id := t.rows[e.id]];
  }

  lemma PolledQueue(s: State, queue: seq<Execution>, result: Option<seq<FillRecord>>)
    requires queue != [] && CopiesAreCurrent(queue, s.rows)
    ensures CopiesAreCurrent(queue[1..], Polled(s, queue[0], result).rows)
  {
    hide ApplyFills;
    var t := Polled(s, queue[0], result);
    forall d | d in queue[1..]
      ensures d.id in t.rows && t.rows[d.id] == d && (d.status == Submitted || d.status == PartialFilled)
    {
      var i :| 0 <= i < |queue| - 1 && queue[1..][i] == d;
      assert queue[i + 1] == d && d in queue && d.id != queue[0].id;
      assert t.rows[d.id] == s.rows[d.id];
    }
  }

  lemma QueueKeepsInvariant(s: State, queue: seq<Execution>)
    requires RowsFine(s) && DraftIsStored(s) && FilledOnce(s) && CopiesAreCurrent(queue, s.rows)
    ensures Invariant(s.(reconciler := Resting(queue)))
  {
    hide Accounts;
  }

  lemma PolledDraft(s: State, e: Execution, result: Option<seq<FillRecord>>)
    requires DraftIsStored(s) && e.id in s.rows && s.rows[e.id] == e && e.status != Created
    ensures DraftIsStored(Polled(s, e, result))
  {
    hide ApplyFills;
  }

  lemma PollKeepsInvariant(s: State, result: Option<seq<FillRecord>>)
    requires Invariant(s) && Enabled(s, Poll(result)) && Promised(s, Poll(result))
    ensures Invariant(Next(s, Poll(result)))
  {
    hide Polled, RowsFine, DraftIsStored, FilledOnce;
    var queue := s.reconciler.queue;
    var e := queue[0];
    assert e in queue;
    PolledRows(s, e, result);
    PolledFilled(s, e, result);
    PolledQueue(s, queue, result);
    PolledDraft(s, e, result);
    QueueKeepsInvariant(Polled(s, e, result), queue[1..]);
  }

  lemma InvariantIsKept(s: State, step: Step)
    requires Invariant(s) && Enabled(s, step) && Promised(s, step)
    ensures Invariant(Next(s, step))
  {
    hide Invariant;
    match step {
      case Deliver(e, newID) => DeliverKeepsInvariant(s, e, newID);
      case Finish(outcome, attempts) => FinishKeepsInvariant(s, outcome, attempts);
      case ListSubmitted(_) => ListKeepsInvariant(s, step);
      case ListPartial(_) => ListKeepsInvariant(s, step);
      case Poll(result) => PollKeepsInvariant(s, result);
    }
  }

  /** Every reachable state: exact fill accounting, no stale copies, one publication per filled row. */
  lemma {:induction false} InvariantAlways(states: seq<State>, steps: seq<Step>, n: nat)
    requires PromisedBehavior(states, steps) && n <= |steps|
    ensures Invariant(states[n])
  {
    if n > 0 {
      InvariantAlways(states, steps, n - 1);
      InvariantIsKept(states[n - 1], steps[n - 1]);
    }
  }

  // ---------------------------------------------------------------------- lifecycle

  function Level(status: Status): nat {
    match status
    case Created => 0
    case Submitting => 1
    case Submitted => 2
    case PartialFilled => 3
    case Filled => 4
    case Canceling => 4
    case Canceled => 5
    case Closed => 5
    case Failed => 6
  }

  lemma {:induction false} PathRises(path: seq<Status>)
    requires IsPath(path)
    ensures Level(path[|path| - 1]) >= Level(path[0]) + |path| - 1
  {
    if |path| > 1 {
      var front := path[..|path| - 1];
      PathRises(front);
      assert CanTransition(path[|path| - 2], path[|path| - 1]);
    }
  }

  lemma ReachesRises(from: Status, to: Status)
    requires Reaches(from, to)
    ensures Level(from) < Level(to)
  {
    var path :| IsPath(path) && |path| > 1 && path[0] == from && path[|path| - 1] == to;
    PathRises(path);
  }

  lemma DirectReaches(from: Status, to: Status)
    requires CanTransition(from, to) || (from == Created && to == Submitted)
    ensures Reaches(from, to)
  {
    var path := if CanTransition(from, to) then [from, to] else [Created, Submitting, Submitted];
    assert IsPath(path) && |path| > 1 && path[0] == from && path[|path| - 1] == to;
  }

  /** How many status changes a row still has before it. */
  function Rank(status: Status): nat {
    match status
    case Created => 3
    case Submitted => 2
    case PartialFilled => 1
    case _ => 0
  }

  ghost predicate KeepsLifecycle(before: Execution, after: Execution) {
    && (after.status == before.status
        || (Reaches(before.status, after.status) && Rank(after.status) < Rank(before.status)))
    && after.executed >= before.executed
    && after.original == before.original && after.id == before.id
    && after.orderID == before.orderID && after.clientOrderID == before.clientOrderID
    && after.user == before.user && after.symbol == before.symbol && after.side == before.side
  }

  lemma ApplyFillsKeepsLifecycle(e: Execution, before: seq<FillRecord>, fills: seq<FillRecord>)
    requires Accounts(e, before) && (e.status == Submitted || e.status == PartialFilled)
    requires forall f :: f in fills ==> f.quantity >= 0.0
    requires ApplyFills(e, fills).Some?
    ensures KeepsLifecycle(e, ApplyFills(e, fills).value)
  {
    ApplyFillsAccounts(e, before, fills);
    DirectReaches(e.status, ApplyFills(e, fills).value.status);
  }

  lemma PolledKeepsLifecycle(s: State, e: Execution, result: Option<seq<FillRecord>>, id: string)
    requires RowsFine(s) && e.id in s.rows && s.rows[e.id] == e && id in s.rows
    requires e.status == Submitted || e.status == PartialFilled
    requires result.Some? ==> forall f :: f in result.value ==> f.quantity >= 0.0
    ensures id in Polled(s, e, result).rows && KeepsLifecycle(s.rows[id], Polled(s, e, result).rows[id])
  {
    if result.Some? && ApplyFills(e, result.value).Some? {
      ApplyFillsKeepsLifecycle(e, AcceptedBy(s, e.id), result.value);
      hide ApplyFills, Accounts, Reaches;
    }
  }

  lemma FinishedKeepsLifecycle(s: State, outcome: Outcome, attempts: nat, id: string)
    requires DraftIsStored(s) && s.consumer.Working? && id in s.rows
    ensures id in Finished(s, outcome, attempts).rows
    ensures KeepsLifecycle(s.rows[id], Finished(s, outcome, attempts).rows[id])
  {
    DirectReaches(Created, Resolved(s.consumer.draft, outcome, attempts).status);
    hide Reaches;
  }

  /** No step moves a stored row outside the transitive closure of CanTransition, and none lowers
      its executed quantity. */
  lemma StepKeepsLifecycle(s: State, step: Step, id: string)
    requires Invariant(s) && Enabled(s, step) && Promised(s, step) && id in s.rows
    ensures id in Next(s, step).rows && KeepsLifecycle(s.rows[id], Next(s, step).rows[id])
  {
    match step {
      case Poll(result) =>
        assert s.reconciler.queue[0] in s.reconciler.queue;
        PolledKeepsLifecycle(s, s.reconciler.queue[0], result, id);
        hide Polled, Accounts, KeepsLifecycle;
      case Finish(outcome, attempts) =>
        FinishedKeepsLifecycle(s, outcome, attempts, id);
        hide Finished, Accounts, KeepsLifecycle;
      case _ =>
    }
  }

  lemma StepLowersRank(s: State, step: Step, id: string)
    requires Invariant(s) && Enabled(s, step) && Promised(s, step)
    ensures id in s.rows ==> id in Next(s, step).rows
    ensures id in s.rows && Next(s, step).rows[id].status != s.rows[id].status ==>
              Rank(Next(s, step).rows[id].status) < Rank(s.rows[id].status)
    ensures id !in s.rows && id in Next(s, step).rows ==> Rank(Next(s, step).rows[id].status) == 3
  {
    hide Invariant, Next, Enabled, Promised;
    if id in s.rows {
      StepKeepsLifecycle(s, step, id);
    } else if id in Next(s, step).rows {
      NewRowIsCreated(s, step, id);
    }
  }

  function Changes(states: seq<State>, id: string, n: nat): nat
    requires n < |states|
  {
    if n == 0 then 0
    else Changes(states, id, n - 1)
         + (if id in states[n - 1].rows && id in states[n].rows
               && states[n].rows[id].status != states[n - 1].rows[id].status then 1 else 0)
  }

  /** A row changes its status at most three times, and only new rows are in status created. */
  lemma {:induction false} AtMostThreeChanges(states: seq<State>, steps: seq<Step>, id: string, n: nat)
    requires PromisedBehavior(states, steps) && n <= |steps|
    ensures id in states[n].rows ==> Changes(states, id, n) + Rank(states[n].rows[id].status) <= 3
    ensures id !in states[n].rows ==> Changes(states, id, n) == 0
  {
    if n > 0 {
      AtMostThreeChanges(states, steps, id, n - 1);
      InvariantAlways(states, steps, n - 1);
      StepLowersRank(states[n - 1], steps[n - 1], id);
      hide Invariant, Next, Enabled, Promised;
    }
  }

  lemma NewRowIsCreated(s: State, step: Step, id: string)
    requires Invariant(s) && Enabled(s, step) && id !in s.rows && id in Next(s, step).rows
    ensures Next(s, step).rows[id].status == Created
  {
  }

  lemma PartialStepFreezes(s: State, step: Step, id: string)
    requires Invariant(s) && Enabled(s, step) && Promised(s, step) && id in s.rows
    requires s.rows[id].status == PartialFilled
    ensures id in Next(s, step).rows
    ensures Next(s, step).rows[id].status == PartialFilled ==> Next(s, step).rows[id] == s.rows[id]
  {
    if step.Poll? {
      var e := s.reconciler.queue[0];
      assert e in s.reconciler.queue;
    }
    hide Accounts, Accumulated;
  }

  lemma PartialOrDone(s: State, step: Step, id: string)
    requires Invariant(s) && Enabled(s, step) && Promised(s, step)
    requires id in s.rows && Rank(s.rows[id].status) <= 1
    ensures id in Next(s, step).rows && Rank(Next(s, step).rows[id].status) <= 1
    ensures Next(s, step).rows[id].status == PartialFilled ==> Next(s, step).rows[id] == s.rows[id]
  {
    hide Invariant, Next, Enabled, Promised, Reaches;
    StepKeepsLifecycle(s, step, id);
    if s.rows[id].status == PartialFilled {
      PartialStepFreezes(s, step, id);
    }
  }

  /** A partial fill is the last thing recorded before the order is complete: while a row stays partially
      filled nothing about it changes, however many further partial fills are polled. */
  lemma {:induction false} PartialIsFrozen(states: seq<State>, steps: seq<Step>, n: nat, m: nat, id: string)
    requires PromisedBehavior(states, steps) && n <= m <= |steps|
    requires id in states[n].rows && states[n].rows[id].status == PartialFilled
    ensures id in states[m].rows && Rank(states[m].rows[id].status) <= 1
    ensures states[m].rows[id].status == PartialFilled ==> states[m].rows[id] == states[n].rows[id]
    decreases m
  {
    if n < m {
      hide Enabled, Next, Promised, Invariant;
      PartialIsFrozen(states, steps, n, m - 1, id);
      InvariantAlways(states, steps, m - 1);
      PartialOrDone(states[m - 1], steps[m - 1], id);
    }
  }

  // ------------------------------------------------------------------ fill accounting

  /** The fill accounting of every stored row in every reachable state. */
  lemma StoredRowAccounts(states: seq<State>, steps: seq<Step>, n: nat, id: string)
    requires PromisedBehavior(states, steps) && n <= |steps| && id in states[n].rows
    ensures var e := states[n].rows[id]; var fills := AcceptedBy(states[n], id);
      && 0.0 <= e.executed <= e.original
      && (e.status == Filled <==> e.executed == e.original)
      && (e.executed > 0.0 ==> e.average * e.executed == e.value)
      && e.value == Notional(fills) && e.fees == Fees(fills)
      && e.executed == (if Quantity(fills) >= e.original then e.original else Quantity(fills))
  {
    InvariantAlways(states, steps, n);
  }

  lemma QuotientWithin(x: real, q: real, lo: real, hi: real)
    requires q > 0.0 && lo * q <= x <= hi * q
    ensures lo <= x / q <= hi
  {
    var m := x / q;
    assert m * q == x;
  }

  /** Unless the accepted fills overshoot the order, the average price lies between the lowest and
      the highest of their prices. */
  lemma AverageWithin(e: Execution, fills: seq<FillRecord>, lo: real, hi: real)
    requires Accounts(e, fills) && e.executed > 0.0 && Quantity(fills) <= e.original
    requires forall f :: f in fills && f.quantity > 0.0 ==> lo <= f.price <= hi
    ensures lo <= e.average <= hi
  {
    NotionalWithin(fills, lo, hi);
    QuotientWithin(e.value, e.executed, lo, hi);
  }

  /** The average price is the volume-weighted mean of the accepted fills exactly when those fills do
      not overshoot the order (or cost nothing): the cap applies to the quantity, not to the value. */
  lemma AverageIsMeanIff(e: Execution, fills: seq<FillRecord>)
    requires Accounts(e, fills) && e.executed > 0.0
    ensures e.average * Quantity(fills) == Notional(fills)
            <==> Quantity(fills) <= e.original || Notional(fills) == 0.0
  {
    assert e.average * e.executed == e.value;
    if Quantity(fills) > e.original {
      var excess := Quantity(fills) - e.original;
      assert e.average * Quantity(fills) == e.average * e.original + e.average * excess;
      if e.average * excess == 0.0 {
        ProductIsZero(e.average, excess);
      }
    }
  }

  lemma ProductIsZero(x: real, y: real)
    requires x * y == 0.0 && y != 0.0
    ensures x == 0.0
  {
  }

  // ------------------------------------------------------- what a poll and an answer do

  lemma TotalsOfOne(fill: FillRecord)
    ensures Quantity([fill]) == fill.quantity && Notional([fill]) == fill.quantity * fill.price
    ensures Fees([fill]) == fill.fee
  {
    assert [fill][..0] == [];
  }

  /** The row after polled fills: totals grow by the list, the quantity is capped at the order, the average is the value
      per executed unit, and the row is filled exactly when the fills reach the order. */
  predicate Books(before: Execution, fills: seq<FillRecord>, after: Execution) {
    && after.executed == (if before.executed + Quantity(fills) >= before.original then before.original
                          else before.executed + Quantity(fills))
    && after.value == before.value + Notional(fills) && after.fees == before.fees + Fees(fills)
    && (after.executed > 0.0 ==> after.average * after.executed == after.value)
    && (after.status == Filled <==> before.executed + Quantity(fills) >= before.original)
    && (after.status == PartialFilled <==> before.executed + Quantity(fills) < before.original)
    && after.exchangeID == before.exchangeID && after.attempts == before.attempts
  }

  lemma ApplyFillsBooks(e: Execution, fills: seq<FillRecord>)
    requires e.status == Submitted || e.status == PartialFilled
    ensures ApplyFills(e, fills).Some? <==> e.status == Submitted || e.executed + Quantity(fills) >= e.original
    ensures ApplyFills(e, fills).Some? ==> Books(e, fills, ApplyFills(e, fills).value)
  {
  }

  lemma PolledBooks(s: State, e: Execution, fills: seq<FillRecord>)
    requires e.id in s.rows && s.rows[e.id] == e && e.exchangeID != "" && fills != []
    requires e.status == Submitted || e.status == PartialFilled
    ensures var after := Polled(s, e, Some(fills)).rows;
      && e.id in after && after == s.rows[e.id := after[e.id]]
      && (if e.status == Submitted || e.executed + Quantity(fills) >= e.original then Books(e, fills, after[e.id])
          else after[e.id] == e)
    ensures forall d :: d in Polled(s, e, Some(fills)).filled && d !in s.filled ==>
      d.status == Filled && Polled(s, e, Some(fills)).rows[e.id] == d
  {
    ApplyFillsBooks(e, fills);
    hide ApplyFills, Books, Quantity;
  }

  /** In every run the fills that the exchange reports for the listed row are booked at once if the row is submitted,
      and for a partially filled row exactly when they complete the order; otherwise the row stays as it is. No other
      row changes, and the row is published exactly when it became filled. */
  lemma PolledFillsAreBooked(states: seq<State>, steps: seq<Step>, n: nat, fills: seq<FillRecord>)
    requires PromisedBehavior(states, steps) && n < |steps| && steps[n] == Poll(Some(fills)) && fills != []
    requires states[n].reconciler.Polling? && states[n].reconciler.queue != []
    requires states[n].reconciler.queue[0].exchangeID != ""
    ensures var id := states[n].reconciler.queue[0].id; var rows := states[n].rows; var after := states[n + 1].rows;
      && id in rows && id in after && (rows[id].status == Submitted || rows[id].status == PartialFilled)
      && (forall k :: k in rows && k != id ==> k in after && after[k] == rows[k])
      && (if rows[id].status == Submitted || rows[id].executed + Quantity(fills) >= rows[id].original
          then Books(rows[id], fills, after[id]) else after[id] == rows[id])
      && (after[id].status == Filled <==> after[id] in states[n + 1].filled)
  {
    var s, e := states[n], states[n].reconciler.queue[0];
    InvariantAlways(states, steps, n);
    InvariantAlways(states, steps, n + 1);
    assert e in s.reconciler.queue;
    assert states[n + 1].rows == Polled(s, e, Some(fills)).rows;
    assert e.id in s.rows && s.rows[e.id] == e && (e.status == Submitted || e.status == PartialFilled);
    FilledIsPublished(states[n + 1], e.id);
    hide *;
    PolledBooks(s, e, fills);
  }

  lemma FilledIsPublished(s: State, id: string)
    requires Invariant(s)
    ensures id in s.rows ==> (s.rows[id].status == Filled <==> s.rows[id] in s.filled)
  {
    hide RowsFine;
  }

  /** The first fills of an order are booked as they are reported, capped at the order: a submitted row has none yet. */
  lemma FirstFillsAreBooked(states: seq<State>, steps: seq<Step>, n: nat, fills: seq<FillRecord>)
    requires PromisedBehavior(states, steps) && n < |steps| && steps[n] == Poll(Some(fills)) && fills != []
    requires states[n].reconciler.Polling? && states[n].reconciler.queue != []
    requires states[n].reconciler.queue[0].exchangeID != "" && states[n].reconciler.queue[0].status == Submitted
    ensures var id := states[n].reconciler.queue[0].id; var after := states[n + 1].rows;
      && id in after && after[id].value == Notional(fills) && after[id].fees == Fees(fills)
      && (if Quantity(fills) >= after[id].original
          then after[id].status == Filled && after[id].executed == after[id].original
          else after[id].status == PartialFilled && after[id].executed == Quantity(fills))
  {
    var s, e := states[n], states[n].reconciler.queue[0];
    PolledFillsAreBooked(states, steps, n, fills);
    InvariantAlways(states, steps, n);
    assert e in s.reconciler.queue && e.id in s.rows && s.rows[e.id] == e;
    StepKeepsLifecycle(s, steps[n], e.id);
    SubmittedIsEmpty(s, e.id);
    hide Invariant, Enabled, Next, Promised, Quantity, Notional, Fees, Reaches;
  }

  lemma SubmittedIsEmpty(s: State, id: string)
    requires Invariant(s) && id in s.rows && s.rows[id].status == Submitted
    ensures s.rows[id].executed == 0.0 && s.rows[id].value == 0.0 && s.rows[id].fees == 0.0
  {
    assert Accounts(s.rows[id], AcceptedBy(s, id));
  }

  /** A poll that brings no fills, or of an execution that has no exchange ID, changes no row and publishes nothing. */
  lemma EmptyPollsChangeNothing(s: State, result: Option<seq<FillRecord>>)
    requires Enabled(s, Poll(result))
    requires result == None || result == Some([]) || s.reconciler.queue[0].exchangeID == ""
    ensures Next(s, Poll(result)).rows == s.rows && Next(s, Poll(result)).filled == s.filled
  {
  }

  /** In every run the first delivery of an order stores one new row for it, as ordered and with nothing executed, and
      starts its submission; any later delivery changes nothing. */
  lemma OrderIsStored(states: seq<State>, steps: seq<Step>, n: nat, e: OrderEvent, newID: string)
    requires PromisedBehavior(states, steps) && n < |steps| && steps[n] == Deliver(e, newID)
    ensures var s, after := states[n], states[n + 1];
      && (e.orderID in s.processed ==> after == s)
      && (e.orderID !in s.processed ==>
            && newID !in s.rows && newID in after.rows && after.rows == s.rows[newID := after.rows[newID]]
            && after.consumer == Working(e.orderID, after.rows[newID])
            && var row := after.rows[newID];
              && row.id == newID && row.orderID == e.orderID && row.clientOrderID == e.clientOrderID
              && row.user == e.user && row.symbol == e.symbol && row.side == e.side && row.original == e.quantity
              && row.executed == row.value == row.fees == 0.0 && row.status == Created)
  {
    assert Promised(states[n], steps[n]) && states[n + 1] == Next(states[n], steps[n]);
  }

  /** In every run the exchange's last answer decides about the row being submitted: accepted under an exchange ID it is
      submitted under that ID, refused it has failed. Nothing else of it changes, and no other row does. */
  lemma AnswerIsStored(states: seq<State>, steps: seq<Step>, n: nat, outcome: Outcome, attempts: nat)
    requires PromisedBehavior(states, steps) && n < |steps| && steps[n] == Finish(outcome, attempts)
    requires states[n].consumer.Working?
    ensures var id := states[n].consumer.draft.id; var rows := states[n].rows; var after := states[n + 1].rows;
      && id in rows && id in after && rows[id].status == Created
      && after[id].status == (if outcome.Accepted? then Submitted else Failed)
      && after[id].exchangeID == (if outcome.Accepted? then outcome.exchangeID else rows[id].exchangeID)
      && after[id].executed == rows[id].executed && after[id].value == rows[id].value
      && after[id].fees == rows[id].fees && (outcome.Accepted? ==> after[id].attempts == attempts)
      && (forall k :: k in rows && k != id ==> k in after && after[k] == rows[k])
  {
    InvariantAlways(states, steps, n);
    hide Accounts;
  }

  // ------------------------------------------------------------------- exchange calls

  function CallCount(calls: seq<Call>, order: string): nat {
    if calls == [] then 0
    else CallCount(calls[..|calls| - 1], order) + (if calls[|calls| - 1].order == order then 1 else 0)
  }

  ghost predicate CallsFine(s: State) {
    && (forall c :: c in s.calls ==> c.order in s.processed)
    && (s.consumer.Working? ==>
          s.consumer.order in s.processed && forall c :: c in s.calls ==> c.order != s.consumer.order)
    && (forall order :: CallCount(s.calls, order) <= MAX_RETRIES + 1)
    && (forall c, d :: c in s.calls && d in s.calls && c.order == d.order ==> c == d)
  }

  lemma {:induction false} CallCountAppend(calls: seq<Call>, more: seq<Call>, order: string)
    ensures CallCount(calls + more, order) == CallCount(calls, order) + CallCount(more, order)
  {
    if more == [] {
      assert calls + more == calls;
    } else {
      var front := more[..|more| - 1];
      CallCountAppend(calls, front, order);
      assert (calls + more)[..|calls + more| - 1] == calls + front;
    }
  }

  lemma {:induction false} CallCountBounds(calls: seq<Call>, order: string)
    ensures CallCount(calls, order) <= |calls|
    ensures (forall c :: c in calls ==> c.order != order) ==> CallCount(calls, order) == 0
  {
    if calls != [] {
      CallCountBounds(calls[..|calls| - 1], order);
      assert calls[|calls| - 1] in calls;
    }
  }

  lemma FinishKeepsCalls(s: State, outcome: Outcome, attempts: nat)
    requires CallsFine(s) && Enabled(s, Finish(outcome, attempts))
    ensures CallsFine(Finished(s, outcome, attempts))
  {
    var call := Call(s.consumer.order, s.consumer.draft.clientOrderID);
    var more := seq(attempts, i => call);
    var t := Finished(s, outcome, attempts);
    assert t.calls == s.calls + more;
    assert forall c :: c in more ==> c == call;
    forall order
      ensures CallCount(t.calls, order) <= MAX_RETRIES + 1
    {
      CallCountAppend(s.calls, more, order);
      CallCountBounds(more, order);
      if order == call.order { CallCountBounds(s.calls, order); }
    }
  }

  /** However often order.created is redelivered, and whatever the IDs, the exchange is called at most
      maxRetries + 1 times for an order, always with the same client order ID. */
  lemma {:induction false} RetryBound(states: seq<State>, steps: seq<Step>, n: nat)
    requires Behavior(states, steps) && n <= |steps|
    ensures forall order :: CallCount(states[n].calls, order) <= MAX_RETRIES + 1
    ensures forall c, d :: c in states[n].calls && d in states[n].calls && c.order == d.order
                           ==> c.clientOrderID == d.clientOrderID
    ensures CallsFine(states[n])
  {
    if n > 0 {
      RetryBound(states, steps, n - 1);
      var s := states[n - 1];
      match steps[n - 1] {
        case Finish(outcome, attempts) => FinishKeepsCalls(s, outcome, attempts);
        case Deliver(_, _) =>
        case _ =>
      }
    }
  }

  lemma {:induction false} CallCountAll(calls: seq<Call>, order: string)
    requires forall c :: c in calls ==> c.order == order
    ensures CallCount(calls, order) == |calls|
  {
    if calls != [] {
      CallCountAll(calls[..|calls| - 1], order);
      assert calls[|calls| - 1] in calls;
    }
  }

  /** All calls for an order are those of its one submission: none before it, and as many as it made. */
  lemma CallsAreCounted(states: seq<State>, steps: seq<Step>, n: nat, outcome: Outcome, attempts: nat)
    requires Behavior(states, steps) && n < |steps| && steps[n] == Finish(outcome, attempts)
    requires states[n].consumer.Working?
    ensures CallCount(states[n].calls, states[n].consumer.order) == 0
    ensures CallCount(states[n + 1].calls, states[n].consumer.order) == attempts
  {
    RetryBound(states, steps, n);
    var s := states[n];
    var call := Call(s.consumer.order, s.consumer.draft.clientOrderID);
    var more := seq(attempts, i => call);
    assert states[n + 1].calls == s.calls + more;
    CallCountBounds(s.calls, call.order);
    CallCountAppend(s.calls, more, call.order);
    CallCountAll(more, call.order);
  }

  // --------------------------------------------------------------- rounds of the loop

  function QueueOf(r: Reconciler): seq<Execution> {
    if r.Polling? then r.queue else []
  }

  /** The step polls for this copy. */
  predicate Polls(s: State, step: Step, e: Execution) {
    step.Poll? && QueueOf(s.reconciler) != [] && QueueOf(s.reconciler)[0] == e
  }

  lemma QueueStep(s: State, step: Step, e: Execution)
    requires Enabled(s, step) && e in QueueOf(s.reconciler)
    ensures Polls(s, step, e) || e in QueueOf(Next(s, step).reconciler)
  {
    hide Polled, Delivered, Finished;
    PolledKeepsQueue(s, step);
  }

  lemma PolledKeepsQueue(s: State, step: Step)
    requires Enabled(s, step)
    ensures QueueOf(Next(s, step).reconciler)
            == match step
               case ListPartial(rows) => s.reconciler.submitted + rows
               case ListSubmitted(_) => []
               case Poll(_) => s.reconciler.queue[1..]
               case _ => QueueOf(s.reconciler)
    ensures step.Deliver? || step.Finish? ==> Next(s, step).reconciler == s.reconciler
  {
    hide ApplyFills, Resolved;
  }

  /** A queued copy is polled before the queue has run empty. */
  lemma {:induction false} EveryQueuedRowIsPolled(states: seq<State>, steps: seq<Step>, m: nat, n: nat, e: Execution)
    requires Behavior(states, steps) && m <= n <= |steps|
    requires e in QueueOf(states[m].reconciler) && QueueOf(states[n].reconciler) == []
    ensures exists k :: m <= k < n && Polls(states[k], steps[k], e)
    decreases n - m
  {
    if !Polls(states[m], steps[m], e) {
      assert Enabled(states[m], steps[m]) && states[m + 1] == Next(states[m], steps[m]);
      hide Enabled, Next, Polls;
      QueueStep(states[m], steps[m], e);
      EveryQueuedRowIsPolled(states, steps, m + 1, n, e);
      var k :| m + 1 <= k < n && Polls(states[k], steps[k], e);
    }
  }

  lemma {:induction false} ListedStays(states: seq<State>, steps: seq<Step>, l: nat, m: nat)
    requires Behavior(states, steps) && l < m <= |steps| && steps[l].ListSubmitted?
    requires forall k :: l < k < m ==> !steps[k].ListPartial?
    ensures states[m].reconciler == Listed(steps[l].rows)
    decreases m
  {
    assert Enabled(states[m - 1], steps[m - 1]) && states[m] == Next(states[m - 1], steps[m - 1]);
    if l < m - 1 {
      ListedStays(states, steps, l, m - 1);
      hide Delivered, Finished;
    }
  }

  /** In every run a round of the reconciliation loop polls for every row that was submitted when it listed the
      submitted ones, and for every row that was partially filled when it listed those. */
  lemma RoundPollsEveryRow(states: seq<State>, steps: seq<Step>, l: nat, m: nat, n: nat, id: string)
    requires Behavior(states, steps) && l < m < n <= |steps|
    requires steps[l].ListSubmitted? && steps[m].ListPartial? && QueueOf(states[n].reconciler) == []
    requires forall k :: l < k < m ==> !steps[k].ListPartial?
    ensures id in states[l].rows && states[l].rows[id].status == Submitted ==>
      exists k :: m < k < n && Polls(states[k], steps[k], states[l].rows[id])
    ensures id in states[m].rows && states[m].rows[id].status == PartialFilled ==>
      exists k :: m < k < n && Polls(states[k], steps[k], states[m].rows[id])
  {
    ListedStays(states, steps, l, m);
    assert Enabled(states[l], steps[l]) && Enabled(states[m], steps[m]) && states[m + 1] == Next(states[m], steps[m]);
    PolledKeepsQueue(states[m], steps[m]);
    assert QueueOf(states[m + 1].reconciler) == steps[l].rows + steps[m].rows;
    hide Next, Polls;
    if id in states[l].rows && states[l].rows[id].status == Submitted {
      assert states[l].rows[id] in steps[l].rows;
      EveryQueuedRowIsPolled(states, steps, m + 1, n, states[l].rows[id]);
    }
    if id in states[m].rows && states[m].rows[id].status == PartialFilled {
      assert states[m].rows[id] in steps[m].rows;
      EveryQueuedRowIsPolled(states, steps, m + 1, n, states[m].rows[id]);
    }
  }
}
