/** The strategy repository and the strategy service, whose maps are changed in place.
    Source: internal/application/strategy/service.go, internal/infrastructure/repository/strategy_repository.go. */
module DispatchService {
  import opened Wrappers
  import opened Signals
  import opened Dispatch

  class Repository {
    var strategies: map<string, Strategy>
    var nextID: nat

    ghost predicate Keyed()
      reads this
    {
      forall id :: id in strategies ==> strategies[id].id == id
    }

    constructor ()
      ensures Keyed() && strategies == map[] && nextID == 0
    {
      strategies, nextID := map[], 0;
    }

    method Create(symbol: string, kind: Kind, active: bool) returns (strategy: Strategy)
      requires Keyed()
      modifies this
      ensures Keyed() && nextID == old(nextID) + 1
      ensures strategy == Strategy(IdOf(nextID), symbol, kind, active)
      ensures strategies == old(strategies)[strategy.id := strategy]
    {
      nextID := nextID + 1;
      strategy := Strategy(IdOf(nextID), symbol, kind, active);
      strategies := strategies[strategy.id := strategy];
    }

    method Toggle(id: string, active: bool) returns (found: bool)
      requires Keyed()
      modifies this`strategies
      ensures Keyed() && (found <==> id in old(strategies))
      ensures strategies
              == if found then old(strategies)[id := old(strategies)[id].(active := active)] else old(strategies)
    {
      if id !in strategies { return false; }
      strategies := strategies[id := strategies[id].(active := active)];
      found := true;
    }

    /** The active strategies, each once. The source sorts them by creation time; any order will do here. */
    method ListActive() returns (listing: seq<Strategy>)
      requires Keyed()
      ensures Enumerates(listing, strategies)
    {
      listing := [];
      var rest := strategies.Keys;
      while rest != {}
        invariant rest <= strategies.Keys
        invariant forall k :: 0 <= k < |listing| ==>
          && listing[k].id in strategies && listing[k].id !in rest
          && strategies[listing[k].id] == listing[k] && listing[k].active
        invariant forall j, k :: 0 <= j < k < |listing| ==> listing[j].id != listing[k].id
        invariant forall id :: id in strategies && id !in rest && strategies[id].active ==>
          exists k :: 0 <= k < |listing| && listing[k].id == id
        decreases |rest|
      {
        var id :| id in rest;
        ghost var before := listing;
        if strategies[id].active {
          listing := listing + [strategies[id]];
          assert listing[|before|].id == id;
        }
        assert forall k :: 0 <= k < |before| ==> listing[k] == before[k];
        rest := rest - {id};
      }
    }
  }

  class Service {
    const repo: Repository
    var runtimeState: map<string, Option<RunState>>
    var processedEvent: set<string>
    var emitted: seq<Signal>

    /** The state machine's world, as the repository and the service hold it. */
    ghost function View(): World
      reads this, repo
    {
      World(repo.strategies, repo.nextID, runtimeState, processedEvent, emitted)
    }

    constructor (repo: Repository)
      ensures this.repo == repo && runtimeState == map[] && processedEvent == {} && emitted == []
    {
      this.repo := repo;
      runtimeState, processedEvent, emitted := map[], {}, [];
    }

    /** The body of the loop: look the state up, evaluate, store it, publish. */
    method Visit(s: Strategy, eventID: string, tick: Tick) returns (signals: seq<Signal>)
      modifies this`runtimeState, this`emitted
      ensures View() == Dispatch.Visit(old(View()), s, eventID, tick)
      ensures emitted == old(emitted) + signals
    {
      signals := [];
      if s.symbol != tick.symbol || s.kind.Unsupported? { return; }
      var key := Key(s.id, s.symbol);
      if key !in runtimeState {
        runtimeState := runtimeState[key := None];
      }
      assert runtimeState == old(runtimeState)[key := StateOf(old(runtimeState), key)];
      var step := Evaluate(s.kind, runtimeState[key], tick.price);
      hide Key, Evaluate;
      if step.None? { return; }
      runtimeState := runtimeState[key := Some(step.value.state)];
      assert runtimeState == old(runtimeState)[key := Some(step.value.state)];
      if step.value.action == Hold { return; }
      signals := [Signal(s.id, s.symbol, step.value.action, eventID)];
      emitted := emitted + signals;
    }

    /** The loop over the listed strategies. */
    method VisitListed(strategies: seq<Strategy>, eventID: string, tick: Tick) returns (signals: seq<Signal>)
      modifies this`runtimeState, this`emitted
      ensures View() == VisitAll(old(View()), strategies, eventID, tick)
      ensures emitted == old(emitted) + signals
    {
      signals := [];
      hide Dispatch.Visit;
      for i := 0 to |strategies|
        invariant View() == VisitAll(old(View()), strategies[..i], eventID, tick)
        invariant emitted == old(emitted) + signals
      {
        var more := Visit(strategies[i], eventID, tick);
        signals := signals + more;
        assert strategies[..i + 1][..i] == strategies[..i];
      }
      assert strategies[..|strategies|] == strategies;
    }

    /** `listFails` stands for an error of the repository. */
    method HandleMarketPriceUpdated(eventID: string, payload: Option<Tick>, listFails: bool)
      returns (signals: seq<Signal>, ghost listing: Option<seq<Strategy>>)
      requires repo.Keyed()
      modifies this
      ensures listing.Some? <==> !listFails
      ensures listing.Some? ==> Enumerates(listing.value, repo.strategies)
      ensures View() == Handled(old(View()), eventID, payload, listing)
      ensures emitted == old(emitted) + signals
    {
      var strategies := repo.ListActive();
      listing := if listFails then None else Some(strategies);
      signals := [];
      if eventID == "" || eventID in processedEvent { return; }
      processedEvent := processedEvent + {eventID};
      if payload.None? || listFails { return; }
      hide *;
      signals := VisitListed(strategies, eventID, payload.value);
    }
  }
}
