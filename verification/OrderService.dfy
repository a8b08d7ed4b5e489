/** The order service and its repository on the heap. One order object is reachable from both indexes and
    from the service's cache, and is changed in place through whichever pointer a call holds.
    Source: internal/application/order/service.go, internal/infrastructure/order_repository.go. */
module OrderService {
  import opened Wrappers
  import opened OrderLifecycle

  /** A pointer to an order: the struct it refers to is assigned and copied as a whole. */
  class Record {
    var data: Order

    constructor (data: Order)
      ensures this.data == data
    {
      this.data := data;
    }

    /** StateMachine.Transition: the order moves in place, or nothing happens. */
    method Transition(newStatus: Status, reason: string) returns (ok: bool)
      modifies this
      ensures ok <==> CanTransition(old(data.status), newStatus)
      ensures data == if ok then Transitioned(old(data), newStatus, reason) else old(data)
    {
      ok := CanTransition(data.status, newStatus);
      if !ok { return; }
      if newStatus == Filled {
        data := data.(executed := data.quantity);
      }
      data := data.(status := newStatus);
      if newStatus == Canceled || newStatus == Rejected {
        data := data.(cancelReason := reason);
      }
    }
  }

  class Repository {
    var ordersById: map<string, Record>
    var ordersByClientID: map<string, Record>

    /** Both maps index the very same objects, each under its own ID. */
    ghost predicate Coherent()
      reads this, ordersById.Values, ordersByClientID.Values
    {
      && (forall id :: id in ordersById ==>
            && ordersById[id].data.id == id
            && ordersById[id].data.clientOrderID in ordersByClientID
            && ordersByClientID[ordersById[id].data.clientOrderID] == ordersById[id])
      && (forall c :: c in ordersByClientID ==>
            && ordersByClientID[c].data.clientOrderID == c
            && ordersByClientID[c].data.id in ordersById
            && ordersById[ordersByClientID[c].data.id] == ordersByClientID[c])
    }

    ghost function Rows(): Store
      reads this`ordersById, ordersById.Values
    {
      map id | id in ordersById :: ordersById[id].data
    }

    constructor ()
      ensures Coherent() && ordersById == map[] && ordersByClientID == map[] && Rows() == map[]
    {
      ordersById, ordersByClientID := map[], map[];
    }

    /** A taken client order ID turns the caller's record into a copy of the stored one; a taken order ID
        is not looked for, and exactly then the two maps part. */
    method Create(order: Record)
      requires Coherent() && order !in ordersById.Values
      modifies this, order
      ensures old(order.data.clientOrderID in ordersByClientID) ==>
        && ordersById == old(ordersById) && ordersByClientID == old(ordersByClientID) && Coherent()
        && order.data == old(ordersByClientID[order.data.clientOrderID].data) && Rows() == old(Rows())
      ensures old(order.data.clientOrderID !in ordersByClientID) ==>
        && order.data == old(order.data)
        && ordersById == old(ordersById)[order.data.id := order]
        && ordersByClientID == old(ordersByClientID)[order.data.clientOrderID := order]
        && Rows() == old(Rows())[order.data.id := order.data]
        && (Coherent() <==> order.data.id !in old(ordersById))
    {
      if order.data.clientOrderID in ordersByClientID {
        CopyStored(order);
      } else {
        Insert(order);
      }
    }

    method CopyStored(order: Record)
      requires Coherent() && order !in ordersById.Values && order.data.clientOrderID in ordersByClientID
      modifies order
      ensures order.data == old(ordersByClientID[order.data.clientOrderID].data)
      ensures Coherent() && Rows() == old(Rows())
    {
      ghost var before := Rows();
      assert forall c :: c in ordersByClientID ==> ordersByClientID[c] in ordersById.Values;
      order.data := ordersByClientID[order.data.clientOrderID].data;
      assert Rows() == before;
    }

    method Insert(order: Record)
      requires Coherent() && order !in ordersById.Values && order.data.clientOrderID !in ordersByClientID
      modifies this
      ensures ordersById == old(ordersById)[order.data.id := order]
      ensures ordersByClientID == old(ordersByClientID)[order.data.clientOrderID := order]
      ensures Rows() == old(Rows())[order.data.id := order.data]
      ensures Coherent() <==> order.data.id !in old(ordersById)
    {
      ghost var byId := ordersById;
      ordersById := ordersById[order.data.id := order];
      ordersByClientID := ordersByClientID[order.data.clientOrderID := order];
      assert Rows() == old(Rows())[order.data.id := order.data];
      hide Rows;
      if order.data.id in byId {
        assert byId[order.data.id] == ordersByClientID[byId[order.data.id].data.clientOrderID];
        assert !Coherent();
      } else {
        assert Coherent();
      }
    }

    /** One stored order was changed in place, its IDs were not, and no other order was touched. */
    twostate predicate ChangedOnly(id: string)
      reads this, ordersById.Values
    {
      && ordersById == old(ordersById) && ordersByClientID == old(ordersByClientID) && id in ordersById
      && SameIdentity(old(ordersById[id].data), ordersById[id].data)
      && forall k :: k in ordersById && ordersById[k] != ordersById[id] ==> unchanged(ordersById[k])
    }

    twostate lemma OneRowChanged(id: string)
      requires old(Coherent()) && ChangedOnly(id)
      ensures Rows() == old(Rows())[id := ordersById[id].data]
    {
      forall k | k in ordersById && k != id
        ensures ordersById[k] != ordersById[id]
      {
        assert old(ordersById[k].data.id) == k;
      }
    }

    twostate lemma StaysCoherent(id: string)
      requires old(Coherent()) && ChangedOnly(id)
      ensures Coherent()
    {
      forall k | k in ordersById
        ensures SameIdentity(old(ordersById[k].data), ordersById[k].data)
      {
      }
      forall c | c in ordersByClientID
        ensures ordersByClientID[c] in ordersById.Values
      {
      }
    }

    method GetByID(id: string) returns (order: Record?)
      ensures order == if id in ordersById then ordersById[id] else null
    {
      order := if id in ordersById then ordersById[id] else null;
    }

    method GetByClientOrderID(clientOrderID: string) returns (order: Record?)
      ensures order == if clientOrderID in ordersByClientID then ordersByClientID[clientOrderID] else null
    {
      order := if clientOrderID in ordersByClientID then ordersByClientID[clientOrderID] else null;
    }

    method Update(order: Record) returns (ok: bool)
      modifies this
      ensures ok <==> order.data.id in old(ordersById)
      ensures ordersById == if ok then old(ordersById)[order.data.id := order] else old(ordersById)
      ensures ordersByClientID
              == if ok then old(ordersByClientID)[order.data.clientOrderID := order] else old(ordersByClientID)
    {
      if order.data.id !in ordersById { return false; }
      ordersById := ordersById[order.data.id := order];
      ordersByClientID := ordersByClientID[order.data.clientOrderID := order];
      ok := true;
    }
  }

  datatype Decision = Decision(
    eventID: string, signalID: string, userID: string, strategyID: string, symbol: string, side: string,
    quantity: real, approved: bool)

  /** Anything that is not "SELL" is bought. */
  function RequestOf(decision: Decision): Request {
    Request(decision.userID, decision.strategyID, decision.symbol,
            if decision.side == "SELL" then Sell else Buy, decision.quantity, decision.signalID, decision.eventID)
  }

  datatype Event = OrderCreated(order: Order) | OrderCanceled(order: Order)

  class Service {
    const repository: Repository
    var processedRiskDecisions: set<string>
    var orderCache: map<string, Record>
    /** The events handed to the producer, in order. */
    var published: seq<Event>

    /** The cache holds the repository's own objects, under the same client order IDs. */
    ghost predicate Coherent()
      reads this`orderCache, repository, repository.ordersById.Values, repository.ordersByClientID.Values
    {
      repository.Coherent() && Agrees(orderCache, repository.ordersByClientID)
    }

    constructor (repository: Repository)
      requires repository.Coherent()
      ensures this.repository == repository && Coherent()
      ensures processedRiskDecisions == {} && orderCache == map[] && published == []
    {
      this.repository := repository;
      processedRiskDecisions, orderCache, published := {}, map[], [];
    }

    method CreateOrder(request: Request, id: string, clientOrderID: string, correlationID: string)
      returns (order: Record?)
      requires Coherent()
      modifies this`orderCache, repository
      ensures order != null <==> ValidCreation(request)
      ensures order == null ==> Coherent() && unchanged(this) && unchanged(repository)
      ensures order != null ==> fresh(order) && orderCache == old(orderCache)[clientOrderID := order]
      ensures order != null && clientOrderID !in old(repository.ordersByClientID) ==>
        && repository.ordersById == old(repository.ordersById)[id := order]
        && order.data == NewOrder(request, id, clientOrderID, correlationID)
        && repository.Rows() == Apply(old(repository.Rows()), Create(request, id, clientOrderID, correlationID))
      ensures order != null && clientOrderID in old(repository.ordersByClientID) ==>
        repository.Rows() == old(repository.Rows())
      ensures order != null ==>
        (Coherent() <==> id !in old(repository.ordersById) && clientOrderID !in old(repository.ordersByClientID))
    {
      hide Repository.Rows, Agrees;
      if !ValidCreation(request) { return null; }
      order := new Record(NewOrder(request, id, clientOrderID, correlationID));
      CacheOne(orderCache, repository.ordersByClientID, clientOrderID, order);
      repository.Create(order);
      orderCache := orderCache[clientOrderID := order];
    }

    /** The cache-first lookup returns the very object that the repository holds. */
    method GetOrderByClientID(clientOrderID: string) returns (order: Record?)
      requires Coherent()
      ensures order == if clientOrderID in repository.ordersByClientID then repository.ordersByClientID[clientOrderID]
                       else null
      ensures order != null ==> order.data.id in repository.ordersById && repository.ordersById[order.data.id] == order
    {
      if clientOrderID in orderCache { return orderCache[clientOrderID]; }
      order := repository.GetByClientOrderID(clientOrderID);
    }

    /** Update after an in-place change stores the pointer that is already there. */
    method Persist(order: Record)
      requires StoredByBoth(order)
      modifies repository
      ensures repository.ordersById == old(repository.ordersById)
      ensures repository.ordersByClientID == old(repository.ordersByClientID)
    {
      var ok := repository.Update(order);
      assert repository.ordersById == old(repository.ordersById);
      assert repository.ordersByClientID == old(repository.ordersByClientID);
    }

    ghost predicate StoredByBoth(order: Record)
      reads repository, order
    {
      && order.data.id in repository.ordersById && repository.ordersById[order.data.id] == order
      && order.data.clientOrderID in repository.ordersByClientID
      && repository.ordersByClientID[order.data.clientOrderID] == order
    }

    /** UpdateOrderFill on the object that was looked up: validate, move, overwrite, store. */
    method FillStored(order: Record, executed: real, average: real, fees: real, newStatus: Status) returns (ok: bool)
      requires StoredByBoth(order)
      modifies repository, order
      ensures repository.ordersById == old(repository.ordersById)
      ensures repository.ordersByClientID == old(repository.ordersByClientID)
      ensures Outcome(old(order.data), Fill(old(order.data.id), executed, average, fees, newStatus), ok, order.data)
    {
      if !ValidFill(order.data, executed, average, fees) { return false; }
      ok := order.Transition(newStatus, "");
      if !ok { return; }
      order.data := order.data.(executed := executed, average := average, fees := fees);
      if executed > 0.0 {
        order.data := order.data.(value := executed * average);
      }
      Persist(order);
    }

    method UpdateOrderFill(id: string, executed: real, average: real, fees: real, newStatus: Status)
      returns (order: Record?)
      requires Coherent()
      modifies repository, repository.ordersById.Values
      ensures Coherent() && repository.ordersById == old(repository.ordersById)
      ensures order != null <==> Succeeds(old(repository.Rows()), Fill(id, executed, average, fees, newStatus))
      ensures order != null ==> id in repository.ordersById && order == repository.ordersById[id]
      ensures repository.Rows() == Apply(old(repository.Rows()), Fill(id, executed, average, fees, newStatus))
    {
      hide Changed, Apply, Agrees, Repository.Rows;
      order := repository.GetByID(id);
      RefusedWhenMissing(this, id);
      if order == null { return; }
      StoredUnder(this, id);
      ghost var rows := repository.Rows();
      var ok := FillStored(order, executed, average, fees, newStatus);
      OutcomeIsApply(rows, id, Fill(id, executed, average, fees, newStatus), ok, order.data);
      repository.OneRowChanged(id);
      repository.StaysCoherent(id);
      if !ok { order := null; }
    }

    /** CancelOrder on the object that was looked up. */
    method CancelStored(order: Record, reason: string) returns (ok: bool)
      requires StoredByBoth(order)
      modifies repository, order
      ensures repository.ordersById == old(repository.ordersById)
      ensures repository.ordersByClientID == old(repository.ordersByClientID)
      ensures Outcome(old(order.data), Cancel(old(order.data.id), reason), ok, order.data)
    {
      if !ValidCancellation(order.data) { return false; }
      ok := order.Transition(Canceled, reason);
      Persist(order);
    }

    method CancelOrder(id: string, reason: string) returns (order: Record?)
      requires Coherent()
      modifies repository, repository.ordersById.Values, this`published
      ensures Coherent() && repository.ordersById == old(repository.ordersById)
      ensures order != null <==> Succeeds(old(repository.Rows()), Cancel(id, reason))
      ensures order != null ==> id in repository.ordersById && order == repository.ordersById[id]
      ensures repository.Rows() == Apply(old(repository.Rows()), Cancel(id, reason))
      ensures published == if order == null then old(published) else old(published) + [OrderCanceled(order.data)]
    {
      hide Changed, Apply, Agrees, Repository.Rows;
      order := repository.GetByID(id);
      RefusedWhenMissing(this, id);
      if order == null { return; }
      StoredUnder(this, id);
      ghost var rows := repository.Rows();
      var ok := CancelStored(order, reason);
      OutcomeIsApply(rows, id, Cancel(id, reason), ok, order.data);
      repository.OneRowChanged(id);
      repository.StaysCoherent(id);
      if !ok { return null; }
      published := published + [OrderCanceled(order.data)];
    }

    /** TransitionOrder on the object that was looked up. */
    method TransitionStored(order: Record, newStatus: Status, reason: string) returns (ok: bool)
      requires StoredByBoth(order)
      modifies repository, order
      ensures repository.ordersById == old(repository.ordersById)
      ensures repository.ordersByClientID == old(repository.ordersByClientID)
      ensures Outcome(old(order.data), Op.Transition(old(order.data.id), newStatus, reason), ok, order.data)
    {
      ok := order.Transition(newStatus, reason);
      if !ok { return; }
      Persist(order);
    }

    method TransitionOrder(id: string, newStatus: Status, reason: string) returns (order: Record?)
      requires Coherent()
      modifies repository, repository.ordersById.Values
      ensures Coherent() && repository.ordersById == old(repository.ordersById)
      ensures order != null <==> Succeeds(old(repository.Rows()), Op.Transition(id, newStatus, reason))
      ensures order != null ==> id in repository.ordersById && order == repository.ordersById[id]
      ensures repository.Rows() == Apply(old(repository.Rows()), Op.Transition(id, newStatus, reason))
    {
      hide Changed, Apply, Agrees, Repository.Rows;
      order := repository.GetByID(id);
      RefusedWhenMissing(this, id);
      if order == null { return; }
      StoredUnder(this, id);
      ghost var rows := repository.Rows();
      var ok := TransitionStored(order, newStatus, reason);
      OutcomeIsApply(rows, id, Op.Transition(id, newStatus, reason), ok, order.data);
      repository.OneRowChanged(id);
      repository.StaysCoherent(id);
      if !ok { order := null; }
    }

    /** ConsumeRiskDecisions: a decision is marked before anything is validated, and makes at most one order. */
    method HandleDecision(decision: Decision, id: string, clientOrderID: string, correlationID: string)
      returns (order: Record?)
      requires Coherent()
      requires id !in repository.ordersById && clientOrderID !in repository.ordersByClientID
      modifies this`processedRiskDecisions, this`orderCache, this`published, repository
      ensures Coherent()
      ensures order != null <==>
        && decision.approved && decision.eventID !in old(processedRiskDecisions)
        && ValidCreation(RequestOf(decision))
      ensures processedRiskDecisions
              == if decision.approved then old(processedRiskDecisions) + {decision.eventID}
                 else old(processedRiskDecisions)
      ensures repository.Rows()
              == if order == null then old(repository.Rows())
                 else Apply(old(repository.Rows()), Create(RequestOf(decision), id, clientOrderID, correlationID))
      ensures published == if order == null then old(published) else old(published) + [OrderCreated(order.data)]
      ensures order != null ==>
        fresh(order) && order.data == NewOrder(RequestOf(decision), id, clientOrderID, correlationID)
    {
      hide Repository.Rows;
      if !decision.approved || decision.eventID in processedRiskDecisions { return null; }
      processedRiskDecisions := processedRiskDecisions + {decision.eventID};
      if !ValidCreation(RequestOf(decision)) { return null; }
      order := CreateOrder(RequestOf(decision), id, clientOrderID, correlationID);
      published := published + [OrderCreated(order.data)];
    }
  }

  /** Every cached pointer is the one that the index holds. */
  ghost predicate Agrees(cache: map<string, Record>, index: map<string, Record>) {
    forall c :: c in cache ==> c in index && cache[c] == index[c]
  }

  lemma CacheOne(cache: map<string, Record>, index: map<string, Record>, c: string, order: Record)
    requires Agrees(cache, index) && order !in index.Values
    ensures Agrees(cache[c := order], index[c := order])
    ensures c in index ==> !Agrees(cache[c := order], index)
  {
    if c in index {
      assert index[c] in index.Values;
      assert cache[c := order][c] != index[c];
    }
  }

  /** The order after an operation was tried on it, and whether it was accepted. */
  ghost predicate Outcome(before: Order, op: Op, ok: bool, after: Order) {
    ok == Changed(before, op).Some? && after == if ok then Changed(before, op).value else before
  }

  lemma RefusedWhenMissing(service: Service, id: string)
    ensures id in service.repository.ordersById <==> id in service.repository.Rows()
    ensures forall op: Op :: op.id == id && !op.Create? && id !in service.repository.Rows() ==>
      !Succeeds(service.repository.Rows(), op) && Apply(service.repository.Rows(), op) == service.repository.Rows()
  {
  }

  lemma StoredUnder(service: Service, id: string)
    requires service.Coherent() && id in service.repository.ordersById
    ensures service.repository.ordersById[id].data.id == id
    ensures service.StoredByBoth(service.repository.ordersById[id])
    ensures id in service.repository.Rows() && service.repository.Rows()[id] == service.repository.ordersById[id].data
  {
  }

  lemma OutcomeIsApply(rows: Store, id: string, op: Op, ok: bool, after: Order)
    requires id in rows && op.id == id && !op.Create? && Outcome(rows[id], op, ok, after)
    ensures SameIdentity(rows[id], after)
    ensures ok <==> Succeeds(rows, op)
    ensures rows[id := after] == Apply(rows, op)
  {
    if ok { ChangedKeeps(rows[id], op); }
  }
}
