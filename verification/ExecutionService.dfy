/** The execution service and its repository on the heap: the repository stores the pointers it is
    given and lists copies; the reconciliation loop works on such a copy and swaps it in. */
module ExecutionService {
  import opened Wrappers
  import opened ExecutionLifecycle
  import Submitter

  /** A pointer to an execution: the struct it refers to is assigned and copied as a whole. */
  class Record {
    var data: Execution

    constructor (data: Execution)
      ensures this.data == data
    {
      this.data := data;
    }

    method TransitionTo(newStatus: Status) returns (ok: bool)
      modifies this
      ensures ok <==> CanTransition(old(data.status), newStatus)
      ensures data == if ok then old(data).(status := newStatus) else old(data)
    {
      ok := CanTransition(data.status, newStatus);
      if ok { data := data.(status := newStatus); }
    }
  }

  ghost function ValuesOf(records: seq<Record>): seq<Execution>
    reads records
  {
    if records == [] then [] else ValuesOf(records[..|records| - 1]) + [records[|records| - 1].data]
  }

  class Repository {
    var executions: map<string, Record>
    var byExchangeID: map<string, Record>

    ghost predicate Keyed()
      reads this`executions, executions.Values
    {
      forall k :: k in executions ==> executions[k].data.id == k
    }

    /** The exchange index points at the very records that the primary map holds. */
    ghost predicate Valid()
      reads this, executions.Values, byExchangeID.Values
    {
      && Keyed()
      && (forall x :: x in byExchangeID ==>
            && x != "" && byExchangeID[x].data.exchangeID == x
            && byExchangeID[x].data.id in executions && executions[byExchangeID[x].data.id] == byExchangeID[x])
    }

    ghost function Rows(): map<string, Execution>
      reads this`executions, executions.Values
    {
      map k | k in executions :: executions[k].data
    }

    constructor ()
      ensures Valid() && Rows() == map[] && executions == map[]
    {
      executions, byExchangeID := map[], map[];
    }

    /** A record whose client order ID is already stored becomes a copy of the stored one. */
    method Create(execution: Record)
      requires Keyed() && execution !in executions.Values
      modifies this`executions, execution
      ensures Keyed()
      ensures StoresClient(old(Rows()), old(execution.data.clientOrderID)) ==>
        && executions == old(executions) && Rows() == old(Rows()) && (old(Valid()) ==> Valid())
        && execution.data in old(Rows()).Values && execution.data.clientOrderID == old(execution.data.clientOrderID)
      ensures !StoresClient(old(Rows()), old(execution.data.clientOrderID)) ==>
        && execution.data == old(execution.data)
        && executions == old(executions)[execution.data.id := execution]
        && Rows() == old(Rows())[execution.data.id := execution.data]
        && (old(Valid()) && execution.data.id !in old(executions) ==> Valid())
    {
      ghost var before := Rows();
      var rest := executions.Keys;
      while rest != {}
        invariant rest <= executions.Keys
        invariant forall k :: k in executions && k !in rest ==>
          executions[k].data.clientOrderID != execution.data.clientOrderID
        decreases |rest|
      {
        var k :| k in rest;
        if executions[k].data.clientOrderID == execution.data.clientOrderID {
          assert before[k].clientOrderID == execution.data.clientOrderID;
          execution.data := executions[k].data;
          assert Rows() == before;
          return;
        }
        rest := rest - {k};
      }
      executions := executions[execution.data.id := execution];
      assert Rows() == before[execution.data.id := execution.data];
    }

    /** The exchange IDs under which the execution is indexed. */
    ghost function IndexedAs(id: string): set<string>
      reads this`byExchangeID, byExchangeID.Values
    {
      set x | x in byExchangeID && byExchangeID[x].data.id == id :: x
    }

    /** The index is right about every execution but that one. */
    ghost predicate IndexesOthers(id: string)
      reads this, executions.Values, byExchangeID.Values
    {
      forall x :: x in byExchangeID ==>
        && x != ""
        && (byExchangeID[x].data.id == id
            || (byExchangeID[x].data.exchangeID == x && byExchangeID[x].data.id in executions
                && executions[byExchangeID[x].data.id] == byExchangeID[x]))
    }

    method Update(execution: Record) returns (ok: bool)
      requires Keyed()
      modifies this
      ensures Keyed()
      ensures ok <==> execution.data.id in old(executions)
      ensures executions == if ok then old(executions)[execution.data.id := execution] else old(executions)
      ensures byExchangeID == if ok && execution.data.exchangeID != ""
                              then old(byExchangeID)[execution.data.exchangeID := execution] else old(byExchangeID)
    {
      if execution.data.id !in executions { return false; }
      if execution.data.exchangeID != "" {
        byExchangeID := byExchangeID[execution.data.exchangeID := execution];
      }
      executions := executions[execution.data.id := execution];
      ok := true;
    }

    /** Copies of the records with that status, in any order. */
    method ListByStatus(status: Status) returns (copies: seq<Record>)
      requires Keyed()
      ensures forall c :: c in copies ==> fresh(c)
      ensures Enumerates(ValuesOf(copies), Rows(), status)
    {
      hide Enumerates, ValuesOf;
      copies := [];
      ghost var rows := Rows();
      ghost var values := ValuesOf(copies);
      ListNothing(copies, rows, status);
      var rest := executions.Keys;
      assert rest == rows.Keys;
      while rest != {}
        invariant rest <= executions.Keys
        invariant forall c :: c in copies ==> fresh(c)
        invariant values == ValuesOf(copies) && Enumerates(values, rows - rest, status)
        decreases |rest|
      {
        var k :| k in rest;
        assert rows[k] == executions[k].data;
        ListOneMore(values, rows, rest, k, status);
        copies := AppendCopy(copies, executions[k], status);
        values := if rows[k].status == status then values + [rows[k]] else values;
        rest := rest - {k};
      }
      assert rows - rest == rows;
    }

    method AppendCopy(copies: seq<Record>, record: Record, status: Status) returns (more: seq<Record>)
      ensures forall c :: c in more ==> c in copies || fresh(c)
      ensures ValuesOf(more)
              == if record.data.status == status then ValuesOf(copies) + [record.data] else ValuesOf(copies)
    {
      more := copies;
      if record.data.status == status {
        var copy := new Record(record.data);
        more := more + [copy];
        assert more[..|more| - 1] == copies;
      }
    }
  }

  class Service {
    const repository: Repository
    const submitter: Submitter.Submitter
    var processedOrders: set<string>
    var executionCache: map<string, Record>
    var published: seq<Execution>

    /** The part of the state machine's state that the service holds. */
    ghost function View(): State
      reads this, repository, repository.executions.Values
    {
      INITIAL.(processed := processedOrders, rows := repository.Rows(), filled := published)
    }

    constructor (repository: Repository, submitter: Submitter.Submitter)
      ensures this.repository == repository && this.submitter == submitter
      ensures processedOrders == {} && executionCache == map[] && published == []
    {
      this.repository, this.submitter := repository, submitter;
      processedOrders, executionCache, published := {}, map[], [];
    }

    /** Persist and cache a new draft; it may come back as a copy of a stored row. */
    method StoreDraft(event: OrderEvent, newID: string) returns (draft: Record)
      requires repository.Keyed()
      modifies this`executionCache, repository
      ensures fresh(draft) && repository.Keyed()
      ensures StoresClient(old(repository.Rows()), event.clientOrderID) ==>
        && repository.Rows() == old(repository.Rows()) && draft !in repository.executions.Values
        && draft.data in repository.Rows().Values && draft.data.clientOrderID == event.clientOrderID
      ensures !StoresClient(old(repository.Rows()), event.clientOrderID) ==>
        && draft.data == NewExecution(event, newID)
        && newID in repository.executions && repository.executions[newID] == draft
        && repository.Rows() == old(repository.Rows())[newID := draft.data]
      ensures old(repository.Valid()) && newID !in old(repository.executions) ==> repository.Valid()
    {
      draft := new Record(NewExecution(event, newID));
      assert repository.Rows() == old(repository.Rows());
      hide Repository.Rows, StoresClient;
      repository.Create(draft);
      executionCache := executionCache[event.clientOrderID := draft];
    }

    /** handleOrderCreated up to the submission; `draft` is the pointer that will be submitted. */
    method HandleOrderCreated(event: OrderEvent, newID: string) returns (draft: Record?)
      requires repository.Keyed()
      modifies this`processedOrders, this`executionCache, repository
      ensures repository.Keyed() && (draft != null ==> fresh(draft))
      ensures draft == null <==> event.orderID in old(processedOrders)
      ensures processedOrders == Delivered(old(View()), event, newID).processed
      ensures repository.Rows() == Delivered(old(View()), event, newID).rows
      ensures draft != null && !StoresClient(old(View()).rows, event.clientOrderID) ==>
        && draft.data == NewExecution(event, newID)
        && newID in repository.executions && repository.executions[newID] == draft
      ensures draft != null && StoresClient(old(View()).rows, event.clientOrderID) ==>
        && draft.data in old(View()).rows.Values && draft.data.clientOrderID == event.clientOrderID
        && draft !in repository.executions.Values
      ensures old(repository.Valid()) && newID !in old(repository.executions) ==> repository.Valid()
    {
      hide Repository.Rows;
      if event.orderID in processedOrders { return null; }
      processedOrders := processedOrders + {event.orderID};
      draft := StoreDraft(event, newID);
    }

    /** Store a record in place of whatever record has its ID. */
    method SwapIn(execution: Record)
      requires repository.Keyed() && execution.data.id in repository.executions
      modifies repository
      ensures repository.Keyed()
      ensures repository.executions == old(repository.executions)[execution.data.id := execution]
      ensures repository.Rows() == old(repository.Rows())[execution.data.id := execution.data]
      ensures old(repository.IndexesOthers(execution.data.id)) ==>
        (repository.Valid() <==> old(repository.IndexedAs(execution.data.id)) <= {execution.data.exchangeID})
    {
      ghost var before := repository.Rows();
      ghost var names := repository.IndexedAs(execution.data.id);
      ghost var index := repository.byExchangeID;
      ghost var others := repository.IndexesOthers(execution.data.id);
      var ok := repository.Update(execution);
      assert repository.Rows() == before[execution.data.id := execution.data];
      if x :| x in names && x != execution.data.exchangeID {
        assert repository.byExchangeID[x] == index[x];
        assert !repository.Valid();
      } else if others {
        forall x | x in repository.byExchangeID && x != execution.data.exchangeID
          ensures x in index && repository.byExchangeID[x] == index[x] && index[x].data.id != execution.data.id
        {
          assert x !in names;
        }
        assert repository.Valid();
      }
    }

    /** submitExecution after the last exchange call: the draft is assigned, then stored. The draft is the stored record
        itself, or the copy that a repeated client order ID made of it; the index stays coherent exactly when no other
        exchange ID leads to that execution. */
    method FinishSubmission(draft: Record, outcome: Outcome, attempts: nat)
      requires repository.Keyed() && draft.data.id in repository.executions
      requires draft in repository.executions.Values ==> repository.executions[draft.data.id] == draft
      modifies repository, draft
      ensures repository.Keyed() && draft.data == Resolved(old(draft.data), outcome, attempts)
      ensures repository.executions == old(repository.executions)[draft.data.id := draft]
      ensures repository.Rows() == old(repository.Rows())[draft.data.id := draft.data]
      ensures old(repository.Valid()) ==>
        (repository.Valid() <==> old(repository.IndexedAs(draft.data.id)) <= {draft.data.exchangeID})
    {
      ghost var before := repository.Rows();
      ghost var names := repository.IndexedAs(draft.data.id);
      ghost var valid := repository.Valid();
      match outcome {
        case Refused =>
          draft.data := draft.data.(status := Failed);
        case Accepted(exchangeID) =>
          draft.data := draft.data.(exchangeID := exchangeID, status := Submitted, attempts := attempts);
      }
      assert repository.IndexedAs(draft.data.id) == names;
      assert valid ==> repository.IndexesOthers(draft.data.id);
      assert repository.Rows()[draft.data.id := draft.data] == before[draft.data.id := draft.data];
      hide Repository.Rows, Repository.IndexedAs;
      SwapIn(draft);
    }

    /** submitExecution: the retry loop makes between one and maxRetries + 1 calls, and the last answer is stored. */
    method SubmitExecution(draft: Record, answer: nat -> Option<string>, cancelled: nat -> bool)
      returns (ghost outcome: Outcome, ghost attempts: nat)
      requires repository.Keyed() && draft.data.id in repository.executions && submitter.maxRetries == MAX_RETRIES
      requires draft in repository.executions.Values ==> repository.executions[draft.data.id] == draft
      modifies submitter, repository, draft
      ensures 1 <= attempts <= MAX_RETRIES + 1 && forall k :: 0 <= k < attempts - 1 ==> answer(k) == None
      ensures outcome == OutcomeOf(answer(attempts - 1))
      ensures submitter.sent == old(submitter.sent) + seq(attempts, i => old(draft.data.clientOrderID))
      ensures repository.Keyed() && draft.data == Resolved(old(draft.data), outcome, attempts)
      ensures repository.Rows() == old(repository.Rows())[draft.data.id := draft.data]
    {
      ghost var before := repository.Rows();
      var id := draft.data.id;
      var result, waited := submitter.Submit(id, draft.data.clientOrderID, answer, cancelled);
      var count := submitter.GetAttemptCount(id);
      assert repository.Rows() == before;
      hide Repository.Rows;
      FinishSubmission(draft, OutcomeOf(result), count);
      outcome, attempts := OutcomeOf(result), count;
    }

    /** The whole handler of order.created. It discharges the range of attempts that the state machine's Finish step
        asks for; `start` is the draft as it was submitted. */
    method ConsumeOrderCreated(event: OrderEvent, newID: string, answer: nat -> Option<string>, cancelled: nat -> bool)
      returns (ghost start: Option<Execution>, ghost outcome: Outcome, ghost attempts: nat)
      requires repository.Keyed() && submitter.maxRetries == MAX_RETRIES
      modifies this`processedOrders, this`executionCache, repository, submitter
      ensures repository.Keyed() && (start.None? <==> event.orderID in old(processedOrders))
      ensures start.None? ==> repository.Rows() == old(repository.Rows()) && submitter.sent == old(submitter.sent)
      ensures start.Some? ==>
        && 1 <= attempts <= MAX_RETRIES + 1 && outcome == OutcomeOf(answer(attempts - 1))
        && start.value.clientOrderID == event.clientOrderID
        && submitter.sent == old(submitter.sent) + seq(attempts, i => event.clientOrderID)
        && repository.Rows() == Delivered(old(View()), event, newID).rows[
             start.value.id := Resolved(start.value, outcome, attempts)]
      ensures start.Some? ==> start.value in Delivered(old(View()), event, newID).rows.Values
    {
      start, outcome, attempts := None, Refused, 0;
      ghost var rows := Delivered(View(), event, newID).rows;
      ghost var sent := submitter.sent;
      var draft := HandleOrderCreated(event, newID);
      if draft == null { return; }
      StartIsStored(rows, old(View()), event, newID, draft.data);
      start := Some(draft.data);
      hide Repository.Rows, StoresClient;
      outcome, attempts := SubmitExecution(draft, answer, cancelled);
    }

    /** The accumulating part of applyFills, on a listed copy. */
    method Accumulate(execution: Record, fills: seq<FillRecord>) returns (newStatus: Status)
      modifies execution
      ensures execution.data == Accumulated(old(execution.data), fills)
      ensures newStatus == StatusAfter(old(execution.data), fills)
    {
      ghost var start := execution.data;
      var totalExecutedQty := execution.data.executed;
      var totalExecutedValue := execution.data.value;
      var totalFees := execution.data.fees;
      var i := 0;
      while i < |fills|
        invariant 0 <= i <= |fills|
        invariant totalExecutedQty == start.executed + Quantity(fills[..i])
        invariant totalExecutedValue == start.value + Notional(fills[..i])
        invariant totalFees == start.fees + Fees(fills[..i])
      {
        assert fills[..i + 1][..i] == fills[..i];
        totalExecutedQty := totalExecutedQty + fills[i].quantity;
        totalExecutedValue := totalExecutedValue + fills[i].quantity * fills[i].price;
        totalFees := totalFees + fills[i].fee;
        i := i + 1;
      }
      assert fills[..i] == fills;
      newStatus := PartialFilled;
      if totalExecutedQty >= execution.data.original {
        totalExecutedQty := execution.data.original;
        newStatus := Filled;
      }
      execution.data := execution.data.(executed := totalExecutedQty, value := totalExecutedValue, fees := totalFees);
      if totalExecutedQty > 0.0 {
        execution.data := execution.data.(average := totalExecutedValue / totalExecutedQty);
      }
    }

    /** applyFills up to the update: only the copy changes. */
    method TryFills(execution: Record, fills: seq<FillRecord>) returns (ok: bool)
      modifies execution
      ensures ok <==> ApplyFills(old(execution.data), fills).Some?
      ensures ok ==> execution.data == ApplyFills(old(execution.data), fills).value
      ensures execution.data.id == old(execution.data.id) && execution.data.exchangeID == old(execution.data.exchangeID)
    {
      var newStatus := Accumulate(execution, fills);
      ok := execution.TransitionTo(newStatus);
    }

    /** applyFills up to the publication. */
    method StoreFills(execution: Record, fills: seq<FillRecord>) returns (ok: bool)
      requires repository.Keyed() && execution !in repository.executions.Values
      requires execution.data.id in repository.executions
      modifies repository, execution
      ensures repository.Keyed() && (ok <==> ApplyFills(old(execution.data), fills).Some?)
      ensures ok ==>
        && execution.data == ApplyFills(old(execution.data), fills).value
        && repository.Rows() == old(repository.Rows())[old(execution.data.id) := execution.data]
      ensures !ok ==> repository.Rows() == old(repository.Rows())
      ensures old(repository.Valid()) ==>
        (repository.Valid() <==> !ok || old(repository.IndexedAs(execution.data.id)) <= {execution.data.exchangeID})
    {
      ghost var before := repository.Rows();
      ghost var start := execution.data;
      ghost var valid := repository.Valid();
      ghost var names := repository.IndexedAs(start.id);
      hide ApplyFills;
      ok := TryFills(execution, fills);
      assert repository.Rows() == before && (valid ==> repository.Valid());
      if !ok { return; }
      assert valid ==> repository.IndexesOthers(start.id) && repository.IndexedAs(start.id) == names;
      hide Repository.Rows, Repository.IndexedAs;
      SwapIn(execution);
    }

    /** applyFills on a listed copy: a refused transition throws the copy away; a permitted one swaps it in, whatever
        happened to the stored record meanwhile. */
    method ApplyFillsTo(execution: Record, fills: seq<FillRecord>)
      requires repository.Keyed() && execution !in repository.executions.Values
      requires execution.data.id in repository.executions && execution.data.exchangeID != "" && fills != []
      modifies this`published, repository, execution
      ensures repository.Keyed()
      ensures View() == old(View()).(rows := Polled(old(View()), old(execution.data), Some(fills)).rows,
                                     filled := Polled(old(View()), old(execution.data), Some(fills)).filled)
      ensures old(repository.Valid()) ==>
        (repository.Valid() <==>
           ApplyFills(old(execution.data), fills).None?
           || old(repository.IndexedAs(execution.data.id)) <= {execution.data.exchangeID})
    {
      assert execution.data.id in View().rows;
      PolledCases(View(), execution.data, fills);
      hide ApplyFills, Polled, Repository.Rows, Repository.IndexedAs;
      var ok := StoreFills(execution, fills);
      if ok && execution.data.status == Filled {
        published := published + [execution.data];
      }
    }
  }

  function OutcomeOf(result: Option<string>): Outcome {
    match result
    case None => Refused
    case Some(exchangeID) => Accepted(exchangeID)
  }

  lemma StartIsStored(rows: map<string, Execution>, s: State, event: OrderEvent, newID: string, start: Execution)
    requires rows == Delivered(s, event, newID).rows && event.orderID !in s.processed
    requires if StoresClient(s.rows, event.clientOrderID) then start in s.rows.Values
             else start == NewExecution(event, newID)
    ensures start in rows.Values
  {
    if !StoresClient(s.rows, event.clientOrderID) {
      assert newID in rows && rows[newID] == start;
    }
  }

  lemma PolledCases(s: State, e: Execution, fills: seq<FillRecord>)
    requires e.exchangeID != "" && fills != [] && e.id in s.rows
    ensures ApplyFills(e, fills).None? ==> Polled(s, e, Some(fills)) == s
    ensures ApplyFills(e, fills).Some? ==>
      var next := ApplyFills(e, fills).value;
      && Polled(s, e, Some(fills)).rows == s.rows[e.id := next] && next.id == e.id
      && Polled(s, e, Some(fills)).filled == if next.status == Filled then s.filled + [next] else s.filled
  {
  }

  lemma ListNothing(copies: seq<Record>, rows: map<string, Execution>, status: Status)
    requires copies == []
    ensures Enumerates(ValuesOf(copies), rows - rows.Keys, status)
  {
  }

  lemma ListOneMore(copies: seq<Execution>, rows: map<string, Execution>, rest: set<string>, k: string, status: Status)
    requires Enumerates(copies, rows - rest, status)
    requires k in rest && k in rows && rows[k].id == k
    ensures Enumerates(if rows[k].status == status then copies + [rows[k]] else copies, rows - (rest - {k}), status)
  {
    assert rows - (rest - {k}) == (rows - rest)[k := rows[k]];
    OneMoreRow(copies, rows - rest, rows[k], status);
  }

  lemma OneMoreRow(copies: seq<Execution>, seen: map<string, Execution>, row: Execution, status: Status)
    requires Enumerates(copies, seen, status) && row.id !in seen
    ensures Enumerates(if row.status == status then copies + [row] else copies, seen[row.id := row], status)
  {
    var longer := if row.status == status then copies + [row] else copies;
    assert forall e :: e in longer <==> e in copies || (row.status == status && e == row);
    assert forall e :: e in copies ==> e.id in seen;
  }
}
