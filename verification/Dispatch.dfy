/** The strategy service: one stream of market events, many strategies, each with its own engine state.
    Source: internal/application/strategy/service.go, internal/infrastructure/repository/strategy_repository.go. */
module Dispatch {
  import opened Wrappers
  import opened Signals
  import Ema
  import Rsi

  /** A strategy type without an engine is skipped. */
  datatype Kind = EmaCross(ema: Ema.RawConfig) | RsiCross(rsi: Rsi.RawConfig) | Unsupported

  datatype Strategy = Strategy(id: string, symbol: string, kind: Kind, active: bool)

  datatype RunState = EmaRun(ema: Ema.State) | RsiRun(rsi: Rsi.SoundState)

  datatype Signal = Signal(strategyID: string, symbol: string, action: Action, eventID: string)

  datatype Step = Step(state: RunState, action: Action)

  /** Engine.Evaluate; None is an error. A state of the other engine's type counts as no state. */
  function Evaluate(kind: Kind, st: Option<RunState>, price: real): Option<Step> {
    match kind
    case Unsupported => None
    case EmaCross(raw) =>
      (match Ema.Decoded(raw)
       case None => None
       case Some(cfg) =>
         var before := if st.Some? && st.value.EmaRun? then st.value.ema else Ema.START;
         Some(Step(EmaRun(Ema.Advance(cfg, before, price)), Ema.ActionOn(cfg, before, price))))
    case RsiCross(raw) =>
      (match Rsi.Decoded(raw)
       case None => None
       case Some(cfg) =>
         var before := if st.Some? && st.value.RsiRun? then Some(st.value.rsi) else None;
         Rsi.AdvanceKeepsSound(cfg, before, price);
         Some(Step(RsiRun(Rsi.Advance(cfg, before, price)), Rsi.ActionOn(cfg, before, price))))
  }

  // ---------------------------------------------------------------- identifiers and keys

  function Digits(n: nat): (digits: string)
    ensures |digits| > 0 && forall c :: c in digits ==> '0' <= c <= '9'
  {
    if n < 10 then ['0' + n as char] else Digits(n / 10) + ['0' + (n % 10) as char]
  }

  /** The IDs that the repository hands out. */
  function IdOf(n: nat): string {
    "str-" + Digits(n)
  }

  function Key(id: string, symbol: string): string {
    id + ":" + symbol
  }

  lemma {:induction false} DigitsAreDistinct(m: nat, n: nat)
    requires Digits(m) == Digits(n)
    ensures m == n
  {
    if m >= 10 && n >= 10 {
      assert Digits(m)[..|Digits(m)| - 1] == Digits(m / 10) && Digits(n)[..|Digits(n)| - 1] == Digits(n / 10);
      DigitsAreDistinct(m / 10, n / 10);
      assert Digits(m)[|Digits(m)| - 1] == Digits(n)[|Digits(n)| - 1];
    }
  }

  lemma IdsAreDistinct(m: nat, n: nat)
    requires IdOf(m) == IdOf(n)
    ensures m == n
  {
    assert IdOf(m)[4..] == Digits(m) && IdOf(n)[4..] == Digits(n);
    DigitsAreDistinct(m, n);
  }

  lemma IdsHaveNoColon(n: nat)
    ensures ':' !in IdOf(n)
  {
  }

  lemma ColonEndsTheId(a: string, s: string, b: string, t: string)
    requires ':' !in b && Key(a, s) == Key(b, t)
    ensures |b| <= |a|
  {
    assert Key(a, s)[|a|] == ':';
    assert forall i :: 0 <= i < |b| ==> Key(b, t)[i] == b[i] && Key(b, t)[i] != ':';
  }

  /** The colon in the key cannot come from an ID, so no two strategies share a runtime state. */
  lemma KeysAreDistinct(a: string, s: string, b: string, t: string)
    requires ':' !in a && ':' !in b && Key(a, s) == Key(b, t)
    ensures a == b && s == t
  {
    ColonEndsTheId(a, s, b, t);
    ColonEndsTheId(b, t, a, s);
    assert a == Key(a, s)[..|a|] == Key(b, t)[..|b|] == b;
    assert s == Key(a, s)[|a| + 1..] && t == Key(b, t)[|b| + 1..];
  }

  // -------------------------------------------------------------------------- the service

  datatype World = World(
    strategies: map<string, Strategy>, nextID: nat,
    runtime: map<string, Option<RunState>>, seen: set<string>, emitted: seq<Signal>)

  const INITIAL := World(map[], 0, map[], {}, [])

  datatype Tick = Tick(symbol: string, price: real)

  /** `payload` is None when it does not decode; `listing` is what ListActive returned, None for an error. */
  datatype Input =
    | Create(symbol: string, kind: Kind, active: bool)
    | Toggle(id: string, active: bool)
    | Event(eventID: string, payload: Option<Tick>, listing: Option<seq<Strategy>>)

  function StateOf(runtime: map<string, Option<RunState>>, key: string): Option<RunState> {
    if key in runtime then runtime[key] else None
  }

  /** One round of the loop in HandleMarketPriceUpdated. */
  function Visit(w: World, s: Strategy, eventID: string, tick: Tick): World {
    if s.symbol != tick.symbol || s.kind.Unsupported? then w
    else
      var key := Key(s.id, s.symbol);
      match Evaluate(s.kind, StateOf(w.runtime, key), tick.price)
      case None => w.(runtime := w.runtime[key := StateOf(w.runtime, key)])
      case Some(step) =>
        w.(runtime := w.runtime[key := Some(step.state)],
           emitted := if step.action == Hold then w.emitted
                      else w.emitted + [Signal(s.id, s.symbol, step.action, eventID)])
  }

  function VisitAll(w: World, listing: seq<Strategy>, eventID: string, tick: Tick): World {
    if listing == [] then w
    else Visit(VisitAll(w, listing[..|listing| - 1], eventID, tick), listing[|listing| - 1], eventID, tick)
  }

  /** HandleMarketPriceUpdated: the event ID is used up before the payload is decoded. */
  function Handled(w: World, eventID: string, payload: Option<Tick>, listing: Option<seq<Strategy>>): World {
    if eventID == "" || eventID in w.seen then w
    else
      var marked := w.(seen := w.seen + {eventID});
      if payload.None? || listing.None? then marked else VisitAll(marked, listing.value, eventID, payload.value)
  }

  function Next(w: World, input: Input): World {
    match input
    case Create(symbol, kind, active) =>
      var id := IdOf(w.nextID + 1);
      w.(strategies := w.strategies[id := Strategy(id, symbol, kind, active)], nextID := w.nextID + 1)
    case Toggle(id, active) =>
      if id !in w.strategies then w
      else w.(strategies := w.strategies[id := w.strategies[id].(active := active)])
    case Event(eventID, payload, listing) => Handled(w, eventID, payload, listing)
  }

  /** Every active strategy once, in any order. */
  ghost predicate Enumerates(listing: seq<Strategy>, strategies: map<string, Strategy>) {
    && (forall k :: 0 <= k < |listing| ==>
          listing[k].id in strategies && strategies[listing[k].id] == listing[k] && listing[k].active)
    && (forall j, k :: 0 <= j < k < |listing| ==> listing[j].id != listing[k].id)
    && (forall id :: id in strategies && strategies[id].active ==>
          exists k :: 0 <= k < |listing| && listing[k].id == id)
  }

  function After(inputs: seq<Input>): World {
    if inputs == [] then INITIAL else Next(After(inputs[..|inputs| - 1]), inputs[|inputs| - 1])
  }

  /** ListActive tells the truth about the strategies of that moment. */
  ghost predicate Legal(inputs: seq<Input>) {
    inputs == []
    || (Legal(inputs[..|inputs| - 1])
        && (inputs[|inputs| - 1].Event? && inputs[|inputs| - 1].listing.Some? ==>
              Enumerates(inputs[|inputs| - 1].listing.value, After(inputs[..|inputs| - 1]).strategies)))
  }

  // ------------------------------------------------------------ a strategy on its own

  /** The event is the first with its ID. */
  predicate FirstSeen(inputs: seq<Input>, i: nat)
    requires i < |inputs| && inputs[i].Event?
  {
    inputs[i].eventID != "" && forall j :: 0 <= j < i && inputs[j].Event? ==> inputs[j].eventID != inputs[i].eventID
  }

  /** The prices meant for one strategy: those of the first-seen, decodable events of its symbol that came
      while it was active and could be listed. */
  function OwnPrices(inputs: seq<Input>, id: string): seq<real> {
    if inputs == [] then []
    else
      var front, n := inputs[..|inputs| - 1], |inputs| - 1;
      var strategies := After(front).strategies;
      if inputs[n].Event? && inputs[n].payload.Some? && inputs[n].listing.Some? && FirstSeen(inputs, n)
         && id in strategies && strategies[id].active && strategies[id].symbol == inputs[n].payload.value.symbol
      then OwnPrices(front, id) + [inputs[n].payload.value.price]
      else OwnPrices(front, id)
  }

  /** The engine alone on a stream of prices; an evaluation that fails leaves the state. */
  function AloneState(kind: Kind, prices: seq<real>): Option<RunState> {
    if prices == [] then None
    else
      var before := AloneState(kind, prices[..|prices| - 1]);
      match Evaluate(kind, before, prices[|prices| - 1])
      case None => before
      case Some(step) => Some(step.state)
  }

  function AloneActions(kind: Kind, prices: seq<real>): seq<Action> {
    if prices == [] then []
    else
      var front := prices[..|prices| - 1];
      match Evaluate(kind, AloneState(kind, front), prices[|prices| - 1])
      case None => AloneActions(kind, front)
      case Some(step) => AloneActions(kind, front) + (if step.action == Hold then [] else [step.action])
  }

  function ActionsOf(emitted: seq<Signal>, id: string): seq<Action> {
    if emitted == [] then []
    else
      var last := emitted[|emitted| - 1];
      ActionsOf(emitted[..|emitted| - 1], id) + (if last.strategyID == id then [last.action] else [])
  }

  lemma ActionsOneMore(emitted: seq<Signal>, signal: Signal, id: string)
    ensures ActionsOf(emitted + [signal], id)
            == ActionsOf(emitted, id) + (if signal.strategyID == id then [signal.action] else [])
  {
    assert (emitted + [signal])[..|emitted|] == emitted;
  }

  lemma AloneOneMore(kind: Kind, prices: seq<real>, price: real)
    ensures AloneState(kind, prices + [price])
            == match Evaluate(kind, AloneState(kind, prices), price)
               case None => AloneState(kind, prices)
               case Some(step) => Some(step.state)
    ensures AloneActions(kind, prices + [price])
            == match Evaluate(kind, AloneState(kind, prices), price)
               case None => AloneActions(kind, prices)
               case Some(step) => AloneActions(kind, prices) + (if step.action == Hold then [] else [step.action])
  {
    assert (prices + [price])[..|prices|] == prices;
  }

  // ------------------------------------------------------------- visits do not interfere

  ghost predicate PlainIds(listing: seq<Strategy>) {
    forall k :: 0 <= k < |listing| ==> ':' !in listing[k].id
  }

  /** What the world holds about one strategy. */
  datatype Share = Share(state: Option<RunState>, known: bool, actions: seq<Action>)

  function ShareOf(w: World, id: string, symbol: string): Share {
    Share(StateOf(w.runtime, Key(id, symbol)), Key(id, symbol) in w.runtime, ActionsOf(w.emitted, id))
  }

  lemma VisitElsewhere(w: World, s: Strategy, eventID: string, tick: Tick, id: string, symbol: string)
    requires ':' !in s.id && ':' !in id && s.id != id
    ensures ShareOf(Visit(w, s, eventID, tick), id, symbol) == ShareOf(w, id, symbol)
  {
    if Key(s.id, s.symbol) == Key(id, symbol) {
      KeysAreDistinct(s.id, s.symbol, id, symbol);
    }
    var step := Evaluate(s.kind, StateOf(w.runtime, Key(s.id, s.symbol)), tick.price);
    if step.Some? {
      ActionsOneMore(w.emitted, Signal(s.id, s.symbol, step.value.action, eventID), id);
    }
    hide Key, Evaluate;
  }

  lemma {:induction false} VisitsElsewhere(w: World, listing: seq<Strategy>, eventID: string, tick: Tick,
                                           id: string, symbol: string)
    requires PlainIds(listing) && ':' !in id && forall k :: 0 <= k < |listing| ==> listing[k].id != id
    ensures ShareOf(VisitAll(w, listing, eventID, tick), id, symbol) == ShareOf(w, id, symbol)
  {
    if listing != [] {
      var front, last := listing[..|listing| - 1], listing[|listing| - 1];
      VisitsElsewhere(w, front, eventID, tick, id, symbol);
      VisitElsewhere(VisitAll(w, front, eventID, tick), last, eventID, tick, id, symbol);
      hide ShareOf;
    }
  }

  /** Its share after one price, given the share before. */
  function Fed(share: Share, kind: Kind, price: real): Share {
    match Evaluate(kind, share.state, price)
    case None => share.(known := true)
    case Some(step) =>
      Share(Some(step.state), true, share.actions + (if step.action == Hold then [] else [step.action]))
  }

  lemma VisitHere(w: World, s: Strategy, eventID: string, tick: Tick)
    requires s.symbol == tick.symbol && !s.kind.Unsupported?
    ensures ShareOf(Visit(w, s, eventID, tick), s.id, s.symbol) == Fed(ShareOf(w, s.id, s.symbol), s.kind, tick.price)
  {
    hide Key, Evaluate;
    var step := Evaluate(s.kind, StateOf(w.runtime, Key(s.id, s.symbol)), tick.price);
    if step.Some? {
      ActionsOneMore(w.emitted, Signal(s.id, s.symbol, step.value.action, eventID), s.id);
    }
  }

  lemma {:induction false} VisitsOnce(w: World, listing: seq<Strategy>, eventID: string, tick: Tick, k: nat)
    requires PlainIds(listing) && k < |listing|
    requires forall i, j :: 0 <= i < j < |listing| ==> listing[i].id != listing[j].id
    ensures var s := listing[k];
      ShareOf(VisitAll(w, listing, eventID, tick), s.id, s.symbol)
      == if s.symbol == tick.symbol && !s.kind.Unsupported? then Fed(ShareOf(w, s.id, s.symbol), s.kind, tick.price)
         else ShareOf(w, s.id, s.symbol)
  {
    var front, last, s := listing[..|listing| - 1], listing[|listing| - 1], listing[k];
    var before := VisitAll(w, front, eventID, tick);
    if k == |listing| - 1 {
      VisitsElsewhere(w, front, eventID, tick, s.id, s.symbol);
      hide ShareOf, Fed;
      if s.symbol == tick.symbol && !s.kind.Unsupported? {
        VisitHere(before, s, eventID, tick);
      }
    } else {
      VisitsOnce(w, front, eventID, tick, k);
      hide ShareOf, Fed;
      VisitElsewhere(before, last, eventID, tick, s.id, s.symbol);
    }
  }

  lemma {:induction false} VisitsLeaveTheRest(w: World, listing: seq<Strategy>, eventID: string, tick: Tick)
    ensures var after := VisitAll(w, listing, eventID, tick);
      after.strategies == w.strategies && after.nextID == w.nextID && after.seen == w.seen
  {
    if listing != [] {
      VisitsLeaveTheRest(w, listing[..|listing| - 1], eventID, tick);
    }
  }

  // ------------------------------------------------------------------------- all runs

  ghost predicate Numbered(w: World) {
    forall id :: id in w.strategies ==>
      w.strategies[id].id == id && exists n: nat :: 1 <= n <= w.nextID && id == IdOf(n)
  }

  lemma {:induction false} StrategiesAreNumbered(inputs: seq<Input>)
    ensures Numbered(After(inputs))
  {
    if inputs != [] {
      var w, last := After(inputs[..|inputs| - 1]), inputs[|inputs| - 1];
      StrategiesAreNumbered(inputs[..|inputs| - 1]);
      match last {
        case Event(eventID, payload, listing) =>
          if payload.Some? && listing.Some? {
            VisitsLeaveTheRest(w.(seen := w.seen + {eventID}), listing.value, eventID, payload.value);
          }
        case Create(_, _, _) =>
          assert IdOf(w.nextID + 1) == IdOf(After(inputs).nextID);
        case Toggle(_, _) =>
      }
    }
  }

  lemma NumberedIdsArePlain(w: World, id: string)
    requires Numbered(w) && id in w.strategies
    ensures ':' !in id && id != IdOf(w.nextID + 1)
  {
    var n: nat :| 1 <= n <= w.nextID && id == IdOf(n);
    IdsHaveNoColon(n);
    if id == IdOf(w.nextID + 1) { IdsAreDistinct(n, w.nextID + 1); }
  }

  lemma {:induction false} SeenAreDelivered(inputs: seq<Input>, eventID: string)
    ensures eventID in After(inputs).seen <==>
      eventID != "" && exists i :: 0 <= i < |inputs| && inputs[i].Event? && inputs[i].eventID == eventID
  {
    if inputs != [] {
      var front, last := inputs[..|inputs| - 1], inputs[|inputs| - 1];
      SeenAreDelivered(front, eventID);
      if last.Event? && last.payload.Some? && last.listing.Some? {
        var w := After(front);
        VisitsLeaveTheRest(w.(seen := w.seen + {last.eventID}), last.listing.value, last.eventID, last.payload.value);
      }
      assert forall i :: 0 <= i < |front| ==> front[i] == inputs[i];
    }
  }

  function ShareAlone(kind: Kind, prices: seq<real>): Share {
    Share(AloneState(kind, prices), false, AloneActions(kind, prices))
  }

  ghost predicate Agrees(share: Share, alone: Share) {
    share.state == alone.state && share.actions == alone.actions
  }

  lemma FedAgrees(share: Share, kind: Kind, prices: seq<real>, price: real)
    requires Agrees(share, ShareAlone(kind, prices))
    ensures Agrees(if kind.Unsupported? then share else Fed(share, kind, price), ShareAlone(kind, prices + [price]))
  {
    AloneOneMore(kind, prices, price);
  }

  /** The claim of Independence, with what it needs of strategies that do not exist yet. */
  ghost predicate RunsAlone(inputs: seq<Input>, id: string) {
    var w := After(inputs);
    if id in w.strategies then
      Agrees(ShareOf(w, id, w.strategies[id].symbol), ShareAlone(w.strategies[id].kind, OwnPrices(inputs, id)))
    else
      OwnPrices(inputs, id) == [] && forall symbol :: ShareOf(w, id, symbol) == Share(None, false, [])
  }

  lemma EventKeepsRunsAlone(inputs: seq<Input>, id: string)
    requires inputs != [] && inputs[|inputs| - 1].Event? && Legal(inputs)
    requires Numbered(After(inputs[..|inputs| - 1])) && ':' !in id && RunsAlone(inputs[..|inputs| - 1], id)
    ensures RunsAlone(inputs, id)
  {
    var front, n := inputs[..|inputs| - 1], |inputs| - 1;
    var w, e := After(front), inputs[n];
    SeenAreDelivered(front, e.eventID);
    assert forall i :: 0 <= i < |front| ==> front[i] == inputs[i];
    assert FirstSeen(inputs, n) <==> e.eventID != "" && e.eventID !in w.seen;
    if FirstSeen(inputs, n) && e.payload.Some? && e.listing.Some? {
      EventFeeds(inputs, id);
    } else {
      assert OwnPrices(inputs, id) == OwnPrices(front, id);
      assert After(inputs) == w || After(inputs) == w.(seen := w.seen + {e.eventID});
      SeenDoesNotMatter(w, w.seen + {e.eventID}, id);
      hide ShareOf, ShareAlone, OwnPrices, After;
    }
  }

  lemma ListedIdsArePlain(w: World, listing: seq<Strategy>)
    requires Numbered(w) && Enumerates(listing, w.strategies)
    ensures PlainIds(listing)
  {
    forall k | 0 <= k < |listing|
      ensures ':' !in listing[k].id
    {
      NumberedIdsArePlain(w, listing[k].id);
    }
  }

  lemma SeenDoesNotMatter(w: World, seen: set<string>, id: string)
    ensures forall symbol :: ShareOf(w.(seen := seen), id, symbol) == ShareOf(w, id, symbol)
  {
  }

  /** What a whole round of visits does to one strategy. */
  lemma RoundFeeds(w: World, listing: seq<Strategy>, eventID: string, tick: Tick, id: string)
    requires Numbered(w) && Enumerates(listing, w.strategies) && ':' !in id
    ensures var after := VisitAll(w, listing, eventID, tick);
      && after.strategies == w.strategies
      && (id in w.strategies ==>
            var s := w.strategies[id];
            ShareOf(after, id, s.symbol)
            == if s.active && s.symbol == tick.symbol && !s.kind.Unsupported?
               then Fed(ShareOf(w, id, s.symbol), s.kind, tick.price) else ShareOf(w, id, s.symbol))
      && (id !in w.strategies ==> forall symbol :: ShareOf(after, id, symbol) == ShareOf(w, id, symbol))
  {
    VisitsLeaveTheRest(w, listing, eventID, tick);
    ListedIdsArePlain(w, listing);
    hide VisitAll, ShareOf, Fed, Numbered;
    if id in w.strategies && w.strategies[id].active {
      var k :| 0 <= k < |listing| && listing[k].id == id;
      VisitsOnce(w, listing, eventID, tick, k);
    } else {
      forall symbol
        ensures ShareOf(VisitAll(w, listing, eventID, tick), id, symbol) == ShareOf(w, id, symbol)
      {
        VisitsElsewhere(w, listing, eventID, tick, id, symbol);
      }
    }
  }

  lemma EventFeeds(inputs: seq<Input>, id: string)
    requires inputs != [] && inputs[|inputs| - 1].Event? && Legal(inputs)
    requires var e := inputs[|inputs| - 1]; e.payload.Some? && e.listing.Some?
    requires FirstSeen(inputs, |inputs| - 1) && inputs[|inputs| - 1].eventID !in After(inputs[..|inputs| - 1]).seen
    requires Numbered(After(inputs[..|inputs| - 1])) && ':' !in id && RunsAlone(inputs[..|inputs| - 1], id)
    ensures RunsAlone(inputs, id)
  {
    var front, e := inputs[..|inputs| - 1], inputs[|inputs| - 1];
    var w := After(front);
    var marked := w.(seen := w.seen + {e.eventID});
    var listing, tick := e.listing.value, e.payload.value;
    assert After(inputs) == VisitAll(marked, listing, e.eventID, tick);
    RoundFeeds(marked, listing, e.eventID, tick, id);
    SeenDoesNotMatter(w, w.seen + {e.eventID}, id);
    hide ShareOf, ShareAlone, VisitAll, Fed, Enumerates, FirstSeen, Numbered;
    if id in w.strategies {
      var s := w.strategies[id];
      FedAgrees(ShareOf(w, id, s.symbol), s.kind, OwnPrices(front, id), tick.price);
    }
  }

  lemma CreateKeepsRunsAlone(inputs: seq<Input>, id: string)
    requires inputs != [] && !inputs[|inputs| - 1].Event?
    requires Numbered(After(inputs[..|inputs| - 1])) && RunsAlone(inputs[..|inputs| - 1], id)
    ensures RunsAlone(inputs, id)
  {
    var front := inputs[..|inputs| - 1];
    var w, now := After(front), After(inputs);
    assert OwnPrices(inputs, id) == OwnPrices(front, id);
    assert forall symbol :: ShareOf(now, id, symbol) == ShareOf(w, id, symbol);
    if id in w.strategies {
      NumberedIdsArePlain(w, id);
    }
    hide ShareOf;
  }

  lemma {:induction false} EveryStrategyRunsAlone(inputs: seq<Input>, id: string)
    requires Legal(inputs) && ':' !in id
    ensures RunsAlone(inputs, id)
  {
    if inputs != [] {
      EveryStrategyRunsAlone(inputs[..|inputs| - 1], id);
      StrategiesAreNumbered(inputs[..|inputs| - 1]);
      hide RunsAlone, Numbered;
      if inputs[|inputs| - 1].Event? {
        EventKeepsRunsAlone(inputs, id);
      } else {
        CreateKeepsRunsAlone(inputs, id);
      }
    }
  }

  /** After any run of creations, activations, deactivations and duplicated market events, a strategy's engine
      state and the actions it emitted are those of its engine run alone on its own prices. */
  lemma Independence(inputs: seq<Input>, id: string)
    requires Legal(inputs) && id in After(inputs).strategies
    ensures var w := After(inputs); var s := w.strategies[id]; var prices := OwnPrices(inputs, id);
      && StateOf(w.runtime, Key(id, s.symbol)) == AloneState(s.kind, prices)
      && ActionsOf(w.emitted, id) == AloneActions(s.kind, prices)
  {
    StrategiesAreNumbered(inputs);
    NumberedIdsArePlain(After(inputs), id);
    EveryStrategyRunsAlone(inputs, id);
  }

  // ----------------------------------------------------- what the engines' theorems say here

  lemma {:induction false} AloneEma(kind: Kind, cfg: Ema.Config, prices: seq<real>)
    requires kind.EmaCross? && Ema.Decoded(kind.ema) == Some(cfg)
    ensures AloneState(kind, prices) == if prices == [] then None else Some(EmaRun(Ema.After(cfg, prices)))
  {
    if prices != [] {
      AloneEma(kind, cfg, prices[..|prices| - 1]);
    }
  }

  /** The engine alone holds the state that its own module gives the whole stream. */
  lemma {:induction false} AloneRsi(kind: Kind, cfg: Rsi.Config, prices: seq<real>)
    requires kind.RsiCross? && Rsi.Decoded(kind.rsi) == Some(cfg)
    ensures AloneState(kind, prices) == if prices == [] then None else Some(RsiRun(Rsi.After(cfg, prices).value))
  {
    if prices != [] {
      AloneRsi(kind, cfg, prices[..|prices| - 1]);
      hide Rsi.Advance, Rsi.ActionOn;
    }
  }

  function Signalled(actions: seq<Action>): seq<Action> {
    if actions == [] then []
    else
      var last := actions[|actions| - 1];
      Signalled(actions[..|actions| - 1]) + (if last == Hold then [] else [last])
  }

  function EmaActions(cfg: Ema.Config, prices: seq<real>): (actions: seq<Action>)
    requires Ema.Valid(cfg)
  {
    seq(|prices|, i requires 0 <= i < |prices| => Ema.ActionAt(cfg, prices, i))
  }

  function RsiActions(cfg: Rsi.Config, prices: seq<real>): (actions: seq<Action>)
    requires cfg.period > 0
  {
    seq(|prices|, i requires 0 <= i < |prices| => Rsi.ActionAt(cfg, prices, i))
  }

  lemma EmaActionsOneMore(cfg: Ema.Config, prices: seq<real>)
    requires Ema.Valid(cfg) && prices != []
    ensures var front := prices[..|prices| - 1];
      EmaActions(cfg, prices)
      == EmaActions(cfg, front) + [Ema.ActionOn(cfg, Ema.After(cfg, front), prices[|prices| - 1])]
  {
    hide Ema.ActionOn, Ema.After;
    var front := prices[..|prices| - 1];
    assert forall i :: 0 <= i < |front| ==> front[..i] == prices[..i];
  }

  lemma RsiActionsOneMore(cfg: Rsi.Config, prices: seq<real>)
    requires cfg.period > 0 && prices != []
    ensures var front := prices[..|prices| - 1];
      RsiActions(cfg, prices)
      == RsiActions(cfg, front) + [Rsi.ActionOn(cfg, Rsi.After(cfg, front), prices[|prices| - 1])]
  {
    hide Rsi.ActionOn, Rsi.After;
    var front := prices[..|prices| - 1];
    assert forall i :: 0 <= i < |front| ==> front[..i] == prices[..i];
  }

  /** What an EMA engine emits alone are the signals of its module on the whole stream. */
  lemma {:induction false} AloneEmaActions(kind: Kind, cfg: Ema.Config, prices: seq<real>)
    requires kind.EmaCross? && Ema.Decoded(kind.ema) == Some(cfg)
    ensures AloneActions(kind, prices) == Signalled(EmaActions(cfg, prices))
  {
    if prices != [] {
      var front := prices[..|prices| - 1];
      EmaActionsOneMore(cfg, prices);
      hide Ema.Advance, Ema.ActionOn, Ema.After, Ema.ActionAt, EmaActions;
      AloneEmaActions(kind, cfg, front);
      AloneEma(kind, cfg, front);
    }
  }

  /** The same for an RSI engine. */
  lemma {:induction false} AloneRsiActions(kind: Kind, cfg: Rsi.Config, prices: seq<real>)
    requires kind.RsiCross? && Rsi.Decoded(kind.rsi) == Some(cfg)
    ensures AloneActions(kind, prices) == Signalled(RsiActions(cfg, prices))
  {
    if prices != [] {
      var front := prices[..|prices| - 1];
      RsiActionsOneMore(cfg, prices);
      hide Rsi.Advance, Rsi.ActionOn, Rsi.After, Rsi.ActionAt, RsiActions;
      AloneRsiActions(kind, cfg, front);
      AloneRsi(kind, cfg, front);
    }
  }

  lemma {:induction false} OneSignal(actions: seq<Action>)
    requires forall i :: 0 <= i < |actions| ==> actions[i] == if i == 1 then Buy else Hold
    ensures Signalled(actions) == if |actions| < 2 then [] else [Buy]
  {
    if actions != [] {
      OneSignal(actions[..|actions| - 1]);
    }
  }

  lemma RisingAlone(kind: Kind, cfg: Ema.Config, prices: seq<real>)
    requires kind.EmaCross? && Ema.Decoded(kind.ema) == Some(cfg) && Increasing(prices)
    ensures AloneActions(kind, prices) == if |prices| < 2 then [] else [Buy]
  {
    AloneEmaActions(kind, cfg, prices);
    forall i | 0 <= i < |prices|
      ensures Ema.ActionAt(cfg, prices, i) == if i == 1 then Buy else Hold
    {
      Ema.RisingBuysOnce(cfg, prices, i);
    }
    OneSignal(EmaActions(cfg, prices));
  }

  lemma {:induction false} SignalsFromTheThird(actions: seq<Action>)
    requires forall i :: 0 <= i < |actions| ==> actions[i] == if i < 2 then Hold else Buy
    ensures Signalled(actions) == seq(if |actions| < 2 then 0 else |actions| - 2, _ => Buy)
  {
    if actions != [] {
      SignalsFromTheThird(actions[..|actions| - 1]);
    }
  }

  lemma FallingAlone(kind: Kind, cfg: Rsi.Config, prices: seq<real>)
    requires kind.RsiCross? && Rsi.Decoded(kind.rsi) == Some(cfg) && cfg.oversold >= 0.0 && cfg.overbought > 0.0
    requires forall k :: 0 < k < |prices| ==> prices[k - 1] > prices[k]
    ensures AloneActions(kind, prices) == seq(if |prices| < 2 then 0 else |prices| - 2, _ => Buy)
  {
    AloneRsiActions(kind, cfg, prices);
    forall i | 0 <= i < |prices|
      ensures Rsi.ActionAt(cfg, prices, i) == if i < 2 then Hold else Buy
    {
      Rsi.StepAt(cfg, prices, i);
      if i >= 2 { Rsi.FallingVerdict(cfg, prices, i); }
    }
    SignalsFromTheThird(RsiActions(cfg, prices));
  }

  lemma {:induction false} AloneWithoutEngine(kind: Kind, prices: seq<real>)
    requires forall st, price :: Evaluate(kind, st, price).None?
    ensures AloneActions(kind, prices) == [] && AloneState(kind, prices).None?
  {
    if prices != [] {
      AloneWithoutEngine(kind, prices[..|prices| - 1]);
    }
  }

  /** A strategy without an engine, or whose configuration its engine refuses, emits nothing in any run. */
  lemma RefusedConfigurationIsSilent(inputs: seq<Input>, id: string)
    requires Legal(inputs) && id in After(inputs).strategies
    requires match After(inputs).strategies[id].kind
             case EmaCross(raw) => Ema.Decoded(raw).None?
             case RsiCross(raw) => Rsi.Decoded(raw).None?
             case Unsupported => true
    ensures ActionsOf(After(inputs).emitted, id) == []
  {
    var kind := After(inputs).strategies[id].kind;
    Independence(inputs, id);
    hide After, Legal, OwnPrices, ActionsOf, StateOf, Key;
    AloneWithoutEngine(kind, OwnPrices(inputs, id));
  }

  /** The actions that a strategy emits among any others are those of its engine's own module on its own prices, and the
      state that it holds is the engine's after all of them. */
  lemma EmitsWhatItsEngineSays(inputs: seq<Input>, id: string)
    requires Legal(inputs) && id in After(inputs).strategies
    ensures var w := After(inputs); var s := w.strategies[id]; var prices := OwnPrices(inputs, id);
      match s.kind
      case EmaCross(raw) =>
        Ema.Decoded(raw).Some? ==>
          && ActionsOf(w.emitted, id) == Signalled(EmaActions(Ema.Decoded(raw).value, prices))
          && (prices != [] ==>
                StateOf(w.runtime, Key(id, s.symbol)) == Some(EmaRun(Ema.After(Ema.Decoded(raw).value, prices))))
      case RsiCross(raw) =>
        Rsi.Decoded(raw).Some? ==>
          && ActionsOf(w.emitted, id) == Signalled(RsiActions(Rsi.Decoded(raw).value, prices))
          && (prices != [] ==>
                StateOf(w.runtime, Key(id, s.symbol)) == Some(RsiRun(Rsi.After(Rsi.Decoded(raw).value, prices).value)))
      case Unsupported => ActionsOf(w.emitted, id) == []
  {
    var kind, prices := After(inputs).strategies[id].kind, OwnPrices(inputs, id);
    Independence(inputs, id);
    match kind {
      case EmaCross(raw) =>
        if Ema.Decoded(raw).Some? {
          hide *;
          AloneEma(kind, Ema.Decoded(raw).value, prices);
          AloneEmaActions(kind, Ema.Decoded(raw).value, prices);
        }
      case RsiCross(raw) =>
        if Rsi.Decoded(raw).Some? {
          hide *;
          AloneRsi(kind, Rsi.Decoded(raw).value, prices);
          AloneRsiActions(kind, Rsi.Decoded(raw).value, prices);
        }
      case Unsupported =>
        RefusedConfigurationIsSilent(inputs, id);
    }
  }

  /** However many strategies share the feed, an EMA strategy that has only seen rising prices has bought
      exactly once, and the state it holds is that of its own stream. */
  lemma RisingMarketBuysOnce(inputs: seq<Input>, id: string, cfg: Ema.Config)
    requires Legal(inputs) && id in After(inputs).strategies
    requires var kind := After(inputs).strategies[id].kind; kind.EmaCross? && Ema.Decoded(kind.ema) == Some(cfg)
    requires |OwnPrices(inputs, id)| >= 2 && Increasing(OwnPrices(inputs, id))
    ensures ActionsOf(After(inputs).emitted, id) == [Buy]
    ensures StateOf(After(inputs).runtime, Key(id, After(inputs).strategies[id].symbol))
            == Some(EmaRun(Ema.After(cfg, OwnPrices(inputs, id))))
  {
    var kind := After(inputs).strategies[id].kind;
    Independence(inputs, id);
    hide *;
    AloneEma(kind, cfg, OwnPrices(inputs, id));
    RisingAlone(kind, cfg, OwnPrices(inputs, id));
  }

  /** The same for RSI in a falling market: from the third price on every price is bought, and nothing is sold. */
  lemma FallingMarketBuysEveryPrice(inputs: seq<Input>, id: string, cfg: Rsi.Config)
    requires Legal(inputs) && id in After(inputs).strategies
    requires var kind := After(inputs).strategies[id].kind; kind.RsiCross? && Rsi.Decoded(kind.rsi) == Some(cfg)
    requires cfg.oversold >= 0.0 && cfg.overbought > 0.0
    requires var prices := OwnPrices(inputs, id); forall k :: 0 < k < |prices| ==> prices[k - 1] > prices[k]
    ensures var n := |OwnPrices(inputs, id)|;
      ActionsOf(After(inputs).emitted, id) == seq(if n < 2 then 0 else n - 2, _ => Buy)
  {
    var kind := After(inputs).strategies[id].kind;
    Independence(inputs, id);
    hide *;
    FallingAlone(kind, cfg, OwnPrices(inputs, id));
  }

  // ------------------------------------------------------------- where signals come from

  /** The signal names a strategy of that symbol, and a first-seen price event of that symbol. */
  ghost predicate Traced(inputs: seq<Input>, signal: Signal) {
    && signal.strategyID in After(inputs).strategies
    && After(inputs).strategies[signal.strategyID].symbol == signal.symbol
    && signal.action != Hold
    && exists i :: 0 <= i < |inputs| && Triggers(inputs, i, signal)
  }

  ghost predicate Triggers(inputs: seq<Input>, i: nat, signal: Signal)
    requires i < |inputs|
  {
    && inputs[i].Event? && inputs[i].eventID == signal.eventID && FirstSeen(inputs, i)
    && inputs[i].payload.Some? && inputs[i].payload.value.symbol == signal.symbol
  }

  ghost predicate Comes(signal: Signal, listing: seq<Strategy>, eventID: string, tick: Tick) {
    && signal.action != Hold && signal.eventID == eventID && signal.symbol == tick.symbol
    && exists k :: 0 <= k < |listing| && listing[k].id == signal.strategyID && listing[k].symbol == signal.symbol
  }

  lemma {:induction false} VisitsEmit(w: World, listing: seq<Strategy>, eventID: string, tick: Tick)
    ensures forall signal :: signal in VisitAll(w, listing, eventID, tick).emitted && signal !in w.emitted ==>
      Comes(signal, listing, eventID, tick)
  {
    if listing != [] {
      var front, last := listing[..|listing| - 1], listing[|listing| - 1];
      var before := VisitAll(w, front, eventID, tick);
      VisitsEmit(w, front, eventID, tick);
      hide Evaluate, Key;
      forall signal | signal in VisitAll(w, listing, eventID, tick).emitted && signal !in w.emitted
        ensures Comes(signal, listing, eventID, tick)
      {
        if signal in before.emitted {
          var k :| 0 <= k < |front| && front[k].id == signal.strategyID && front[k].symbol == signal.symbol;
          assert listing[k] == front[k];
        } else {
          assert last.id == signal.strategyID && last.symbol == signal.symbol;
        }
      }
    }
  }

  lemma TracedStays(inputs: seq<Input>, signal: Signal)
    requires inputs != [] && Traced(inputs[..|inputs| - 1], signal)
    requires Numbered(After(inputs[..|inputs| - 1]))
    ensures Traced(inputs, signal)
  {
    var front, last := inputs[..|inputs| - 1], inputs[|inputs| - 1];
    var w := After(front);
    var i :| 0 <= i < |front| && Triggers(front, i, signal);
    assert Triggers(inputs, i, signal);
    hide Triggers;
    if last.Event? {
      if last.payload.Some? && last.listing.Some? {
        VisitsLeaveTheRest(w.(seen := w.seen + {last.eventID}), last.listing.value, last.eventID, last.payload.value);
      }
    } else {
      NumberedIdsArePlain(w, signal.strategyID);
    }
    hide VisitAll;
  }

  lemma NewSignalIsTraced(inputs: seq<Input>, signal: Signal)
    requires inputs != [] && Legal(inputs) && signal in After(inputs).emitted
    requires signal !in After(inputs[..|inputs| - 1]).emitted
    ensures Traced(inputs, signal)
  {
    var front, e := inputs[..|inputs| - 1], inputs[|inputs| - 1];
    var w := After(front);
    var marked := w.(seen := w.seen + {e.eventID});
    assert After(inputs) == VisitAll(marked, e.listing.value, e.eventID, e.payload.value);
    VisitsEmit(marked, e.listing.value, e.eventID, e.payload.value);
    VisitsLeaveTheRest(marked, e.listing.value, e.eventID, e.payload.value);
    SeenAreDelivered(front, e.eventID);
    assert forall i :: 0 <= i < |front| ==> front[i] == inputs[i];
    assert Triggers(inputs, |front|, signal);
    hide VisitAll, After, Triggers;
  }

  /** Every emitted signal is a Buy or a Sell of a stored strategy in its own symbol, and carries the ID of a price
      event of that symbol that had not been delivered before. */
  lemma {:induction false} SignalsAreTraced(inputs: seq<Input>, signal: Signal)
    requires Legal(inputs) && signal in After(inputs).emitted
    ensures Traced(inputs, signal)
  {
    if inputs != [] {
      var front := inputs[..|inputs| - 1];
      StrategiesAreNumbered(front);
      hide Traced, After, Numbered;
      if signal in After(front).emitted {
        SignalsAreTraced(front, signal);
        TracedStays(inputs, signal);
      } else {
        NewSignalIsTraced(inputs, signal);
      }
    }
  }

  // -------------------------------------------------------------- what strategies there are

  function Creations(inputs: seq<Input>): seq<Input> {
    if inputs == [] then []
    else
      var last := inputs[|inputs| - 1];
      Creations(inputs[..|inputs| - 1]) + (if last.Create? then [last] else [])
  }

  /** Whether the n-th created strategy was made active, or last toggled to be. */
  function Setting(inputs: seq<Input>, n: nat): bool {
    if inputs == [] then false
    else
      var front, last := inputs[..|inputs| - 1], inputs[|inputs| - 1];
      match last
      case Create(_, _, active) => if n == |Creations(front)| + 1 then active else Setting(front, n)
      case Toggle(id, active) => if id == IdOf(n) && n <= |Creations(front)| then active else Setting(front, n)
      case Event(_, _, _) => Setting(front, n)
  }

  ghost predicate IsStored(w: World, creations: seq<Input>, n: nat, active: bool)
    requires forall k :: 0 <= k < |creations| ==> creations[k].Create?
  {
    if 1 <= n <= |creations| then
      && IdOf(n) in w.strategies
      && w.strategies[IdOf(n)] == Strategy(IdOf(n), creations[n - 1].symbol, creations[n - 1].kind, active)
    else IdOf(n) !in w.strategies
  }

  lemma {:induction false} CreationsCreate(inputs: seq<Input>)
    ensures forall k :: 0 <= k < |Creations(inputs)| ==> Creations(inputs)[k].Create?
    ensures After(inputs).nextID == |Creations(inputs)|
  {
    if inputs != [] {
      var front, last := inputs[..|inputs| - 1], inputs[|inputs| - 1];
      CreationsCreate(front);
      if last.Event? && last.payload.Some? && last.listing.Some? {
        var w := After(front);
        VisitsLeaveTheRest(w.(seen := w.seen + {last.eventID}), last.listing.value, last.eventID, last.payload.value);
      }
    }
  }

  lemma EventLeavesStrategies(w: World, e: Input)
    requires e.Event?
    ensures Next(w, e).strategies == w.strategies
  {
    if e.payload.Some? && e.listing.Some? {
      VisitsLeaveTheRest(w.(seen := w.seen + {e.eventID}), e.listing.value, e.eventID, e.payload.value);
    }
  }

  /** After any run the strategies are those created, in their numbering: symbol and type as created, active as
      created or last toggled. */
  lemma {:induction false} StrategiesAreAsSet(inputs: seq<Input>, n: nat)
    requires n >= 1
    ensures forall k :: 0 <= k < |Creations(inputs)| ==> Creations(inputs)[k].Create?
    ensures IsStored(After(inputs), Creations(inputs), n, Setting(inputs, n))
  {
    CreationsCreate(inputs);
    if inputs != [] {
      var front, last := inputs[..|inputs| - 1], inputs[|inputs| - 1];
      StrategiesAreAsSet(front, n);
      CreationsCreate(front);
      match last {
        case Event(_, _, _) =>
          EventLeavesStrategies(After(front), last);
        case Create(_, _, _) =>
          if IdOf(n) == IdOf(|Creations(front)| + 1) { IdsAreDistinct(n, |Creations(front)| + 1); }
        case Toggle(_, _) =>
      }
    }
  }
}
