/** The market price feed: subscribers behind bounded channels, broadcasts that drop what does not fit.
    Source: internal/application/market/service.go. */
module PubSub {
  datatype Price = Price(symbol: string, price: real)

  const CAPACITY: nat := 64

  /** One attempt to send a broadcast to a channel: which broadcast it was, how many prices were waiting in
      the buffer at that moment, and whether the price was taken. */
  datatype Offer = Offer(index: nat, price: Price, waiting: nat, kept: bool)

  /** A channel with its history. `from` and `until` count the broadcasts begun before it was made, and
      before it was closed. */
  datatype Channel = Channel(
    buffer: seq<Price>, closed: bool, offers: seq<Offer>, received: seq<Price>, from: nat, until: nat)

  /** `readers` are the broadcasts that hold the read lock, each with the subscribers it has yet to visit. */
  datatype State = State(
    nextSubID: nat, registered: set<nat>, channels: map<nat, Channel>,
    broadcasts: seq<Price>, readers: map<nat, set<nat>>)

  const INITIAL := State(0, {}, map[], [], map[])

  datatype Step =
    | Subscribe
    | Unsubscribe(id: nat)
    | Begin(price: Price)
    | Send(index: nat, id: nat)
    | End(index: nat)
    | Receive(id: nat)

  /** Subscribing and unsubscribing take the write lock; broadcasts only exclude those two. */
  predicate Enabled(s: State, step: Step) {
    match step
    case Subscribe => s.readers == map[]
    case Unsubscribe(id) => s.readers == map[]
    case Begin(_) => true
    case Send(index, id) => index in s.readers && id in s.readers[index] && id in s.channels
    case End(index) => index in s.readers && s.readers[index] == {}
    case Receive(id) => id in s.channels && s.channels[id].buffer != []
  }

  /** The select with a default branch: a full buffer loses the price. */
  function Buffered(buffer: seq<Price>, price: Price): seq<Price> {
    if |buffer| < CAPACITY then buffer + [price] else buffer
  }

  function Offered(c: Channel, index: nat, price: Price): Channel {
    c.(buffer := Buffered(c.buffer, price),
       offers := c.offers + [Offer(index, price, |c.buffer|, |c.buffer| < CAPACITY)])
  }

  /** A step that is not enabled does not happen. */
  function Next(s: State, step: Step): State {
    if !Enabled(s, step) then s
    else
      match step
      case Subscribe =>
        var id := s.nextSubID + 1;
        s.(nextSubID := id, registered := s.registered + {id},
           channels := s.channels[id := Channel([], false, [], [], |s.broadcasts|, 0)])
      case Unsubscribe(id) =>
        if id !in s.registered || id !in s.channels then s
        else s.(registered := s.registered - {id},
                channels := s.channels[id := s.channels[id].(closed := true, until := |s.broadcasts|)])
      case Begin(price) =>
        s.(broadcasts := s.broadcasts + [price], readers := s.readers[|s.broadcasts| := s.registered])
      case Send(index, id) =>
        if index >= |s.broadcasts| then s
        else s.(channels := s.channels[id := Offered(s.channels[id], index, s.broadcasts[index])],
                readers := s.readers[index := s.readers[index] - {id}])
      case End(index) => s.(readers := s.readers - {index})
      case Receive(id) =>
        var c := s.channels[id];
        s.(channels := s.channels[id := c.(buffer := c.buffer[1..], received := c.received + [c.buffer[0]])])
  }

  function After(steps: seq<Step>): State {
    if steps == [] then INITIAL else Next(After(steps[..|steps| - 1]), steps[|steps| - 1])
  }

  /** Go panics on a send to a closed channel and on closing one twice. */
  predicate Panics(s: State, step: Step) {
    match step
    case Send(index, id) => Enabled(s, step) && s.channels[id].closed
    case Unsubscribe(id) => Enabled(s, step) && id in s.registered && (id !in s.channels || s.channels[id].closed)
    case _ => false
  }

  /** The offered prices that found room, in the order in which they were offered. */
  function Kept(offers: seq<Offer>): seq<Price> {
    if offers == [] then []
    else
      var last := offers[|offers| - 1];
      if last.kept then Kept(offers[..|offers| - 1]) + [last.price] else Kept(offers[..|offers| - 1])
  }

  lemma KeptOneMore(offers: seq<Offer>, offer: Offer)
    ensures Kept(offers + [offer]) == if offer.kept then Kept(offers) + [offer.price] else Kept(offers)
  {
    assert (offers + [offer])[..|offers|] == offers;
  }

  /** Broadcasts under way that have yet to visit the subscriber. */
  ghost predicate Pending(s: State, id: nat, index: nat) {
    index in s.readers && id in s.readers[index]
  }

  /** How many broadcasts had begun when the subscription ended, or until now. */
  function Extent(s: State, c: Channel): nat {
    if c.closed then c.until else |s.broadcasts|
  }

  ghost predicate OffersAreReal(s: State, c: Channel) {
    forall k :: 0 <= k < |c.offers| ==>
      && c.from <= c.offers[k].index < Extent(s, c) <= |s.broadcasts|
      && c.offers[k].price == s.broadcasts[c.offers[k].index]
      && (c.offers[k].kept <==> c.offers[k].waiting < CAPACITY) && c.offers[k].waiting <= CAPACITY
  }

  ghost predicate OfferedOnce(c: Channel) {
    forall j, k :: 0 <= j < k < |c.offers| ==> c.offers[j].index != c.offers[k].index
  }

  ghost predicate WasOffered(c: Channel, index: nat) {
    exists k :: 0 <= k < |c.offers| && c.offers[k].index == index
  }

  /** Every broadcast of the subscription has been offered, except where one is still on its way. */
  ghost predicate AllOffered(s: State, id: nat, c: Channel) {
    && (forall index: nat :: c.from <= index < Extent(s, c) ==> (WasOffered(c, index) <==> !Pending(s, id, index)))
    && (forall index: nat :: Pending(s, id, index) ==> c.from <= index < Extent(s, c))
  }

  ghost predicate ChannelSound(s: State, id: nat)
    requires id in s.channels
  {
    var c := s.channels[id];
    && |c.buffer| <= CAPACITY && c.received + c.buffer == Kept(c.offers)
    && c.from <= Extent(s, c) <= |s.broadcasts|
    && OffersAreReal(s, c) && OfferedOnce(c) && AllOffered(s, id, c)
  }

  ghost predicate Registry(s: State) {
    && (forall id :: id in s.registered <==> id in s.channels && !s.channels[id].closed)
    && (forall id :: id in s.channels ==> 1 <= id <= s.nextSubID)
    && (forall index :: index in s.readers ==> index < |s.broadcasts| && s.readers[index] <= s.registered)
  }

  ghost predicate Invariant(s: State) {
    Registry(s) && forall id :: id in s.channels ==> ChannelSound(s, id)
  }

  lemma RegistryIsKept(s: State, step: Step)
    requires Registry(s)
    ensures Registry(Next(s, step)) && !Panics(s, step)
  {
  }

  lemma OfferedOneMore(c: Channel, index: nat, price: Price)
    requires OfferedOnce(c) && !WasOffered(c, index)
    ensures OfferedOnce(Offered(c, index, price))
    ensures forall i :: WasOffered(Offered(c, index, price), i) <==> i == index || WasOffered(c, i)
  {
    var d := Offered(c, index, price);
    assert forall k :: 0 <= k < |c.offers| ==> d.offers[k] == c.offers[k];
    assert d.offers[|c.offers|].index == index;
  }

  lemma SendKeepsOffersReal(s: State, index: nat, id: nat)
    requires Registry(s) && Enabled(s, Send(index, id)) && ChannelSound(s, id)
    ensures id in Next(s, Send(index, id)).channels
    ensures OffersAreReal(Next(s, Send(index, id)), Next(s, Send(index, id)).channels[id])
  {
    assert Pending(s, id, index);
    hide WasOffered, OfferedOnce, Kept;
  }

  lemma SendKeepsAllOffered(s: State, index: nat, id: nat)
    requires Registry(s) && Enabled(s, Send(index, id)) && ChannelSound(s, id)
    ensures id in Next(s, Send(index, id)).channels
    ensures OfferedOnce(Next(s, Send(index, id)).channels[id])
    ensures AllOffered(Next(s, Send(index, id)), id, Next(s, Send(index, id)).channels[id])
  {
    var next := Next(s, Send(index, id));
    var c := s.channels[id];
    assert Pending(s, id, index);
    assert forall i: nat :: Pending(next, id, i) <==> Pending(s, id, i) && i != index;
    assert next.channels[id] == Offered(c, index, s.broadcasts[index]);
    OfferedOneMore(c, index, s.broadcasts[index]);
    hide WasOffered, OfferedOnce, Pending, Kept, OffersAreReal;
  }

  lemma SendKeepsChannel(s: State, index: nat, id: nat)
    requires Registry(s) && Enabled(s, Send(index, id)) && ChannelSound(s, id)
    ensures id in Next(s, Send(index, id)).channels && ChannelSound(Next(s, Send(index, id)), id)
  {
    var d := Next(s, Send(index, id)).channels[id];
    KeptOneMore(s.channels[id].offers, d.offers[|d.offers| - 1]);
    SendKeepsOffersReal(s, index, id);
    SendKeepsAllOffered(s, index, id);
    hide WasOffered, OfferedOnce, Pending, Kept, OffersAreReal, AllOffered;
  }

  lemma ReceiveKeepsChannel(s: State, id: nat)
    requires Enabled(s, Receive(id)) && ChannelSound(s, id)
    ensures ChannelSound(Next(s, Receive(id)), id)
  {
    var c := s.channels[id];
    var next := Next(s, Receive(id));
    var d := next.channels[id];
    assert c.buffer == [c.buffer[0]] + c.buffer[1..];
    assert d.received + d.buffer == c.received + c.buffer;
    assert forall i :: WasOffered(d, i) <==> WasOffered(c, i);
    assert forall i :: Pending(next, id, i) <==> Pending(s, id, i);
  }

  lemma BeginKeepsChannel(s: State, price: Price, id: nat)
    requires Registry(s) && id in s.channels && ChannelSound(s, id)
    ensures ChannelSound(Next(s, Begin(price)), id)
  {
    var next := Next(s, Begin(price));
    var c := s.channels[id];
    forall i: nat | Pending(next, id, i)
      ensures c.from <= i < Extent(next, c)
    {
      if i != |s.broadcasts| { assert Pending(s, id, i); }
    }
    forall i: nat | c.from <= i < Extent(next, c)
      ensures WasOffered(c, i) <==> !Pending(next, id, i)
    {
      if i == |s.broadcasts| {
        assert !WasOffered(c, i);
      } else {
        assert Pending(next, id, i) <==> Pending(s, id, i);
      }
    }
  }

  /** A channel that the step does not touch. */
  lemma OthersKeepTheirChannel(s: State, step: Step, id: nat)
    requires Registry(s) && id in s.channels && ChannelSound(s, id) && Enabled(s, step) && !step.Begin?
    requires (step.Unsubscribe? || step.Send? || step.Receive?) ==> step.id != id
    ensures id in Next(s, step).channels && ChannelSound(Next(s, step), id)
  {
    var next := Next(s, step);
    assert forall i :: Pending(next, id, i) <==> Pending(s, id, i);
  }

  lemma UnsubscribeKeepsChannel(s: State, id: nat)
    requires Registry(s) && id in s.channels && ChannelSound(s, id) && Enabled(s, Unsubscribe(id))
    ensures ChannelSound(Next(s, Unsubscribe(id)), id)
  {
    var next := Next(s, Unsubscribe(id));
    assert forall i :: WasOffered(next.channels[id], i) <==> WasOffered(s.channels[id], i);
    assert forall i :: Pending(next, id, i) <==> Pending(s, id, i);
  }

  lemma ChannelIsKept(s: State, step: Step, id: nat)
    requires Invariant(s) && id in Next(s, step).channels
    ensures ChannelSound(Next(s, step), id)
  {
    if Enabled(s, step) {
      if id !in s.channels {
        assert Next(s, step).channels[id] == Channel([], false, [], [], |s.broadcasts|, 0);
      } else {
        assert ChannelSound(s, id);
        hide Next, ChannelSound;
        match step {
          case Begin(price) => BeginKeepsChannel(s, price, id);
          case Send(index, other) =>
            if other == id { SendKeepsChannel(s, index, id); } else { OthersKeepTheirChannel(s, step, id); }
          case Receive(other) =>
            if other == id { ReceiveKeepsChannel(s, id); } else { OthersKeepTheirChannel(s, step, id); }
          case Unsubscribe(other) =>
            if other == id { UnsubscribeKeepsChannel(s, id); } else { OthersKeepTheirChannel(s, step, id); }
          case _ => OthersKeepTheirChannel(s, step, id);
        }
      }
    }
  }

  lemma {:induction false} InvariantAlways(steps: seq<Step>)
    ensures Invariant(After(steps))
  {
    if steps != [] {
      var s, step := After(steps[..|steps| - 1]), steps[|steps| - 1];
      InvariantAlways(steps[..|steps| - 1]);
      RegistryIsKept(s, step);
      forall id | id in Next(s, step).channels
        ensures ChannelSound(Next(s, step), id)
      {
        ChannelIsKept(s, step, id);
      }
    }
  }

  /** Whatever the interleaving, nothing is sent to a closed channel and none is closed twice. */
  lemma NeverPanics(steps: seq<Step>, step: Step)
    ensures !Panics(After(steps), step)
  {
    InvariantAlways(steps);
    RegistryIsKept(After(steps), step);
  }

  /** What a subscriber has received plus what waits for it are exactly the offers that found room, in order;
      every offer is a broadcast of its subscription, none is offered twice, and one is lost only when
      64 prices were waiting. */
  lemma DeliveredInOrder(steps: seq<Step>, id: nat)
    requires id in After(steps).channels
    ensures var s := After(steps); var c := s.channels[id];
      && |c.buffer| <= 64 && c.received + c.buffer == Kept(c.offers) && OfferedOnce(c)
      && forall k :: 0 <= k < |c.offers| ==>
          && c.from <= c.offers[k].index < Extent(s, c) && c.offers[k].index < |s.broadcasts|
          && c.offers[k].price == s.broadcasts[c.offers[k].index]
          && (!c.offers[k].kept <==> c.offers[k].waiting == 64)
  {
    InvariantAlways(steps);
    assert ChannelSound(After(steps), id);
  }

  /** Once no broadcast is under way, every broadcast begun during a subscription was offered to it. */
  lemma EveryBroadcastIsOffered(steps: seq<Step>, id: nat, index: nat)
    requires id in After(steps).channels && After(steps).readers == map[]
    requires After(steps).channels[id].from <= index < Extent(After(steps), After(steps).channels[id])
    ensures WasOffered(After(steps).channels[id], index)
  {
    InvariantAlways(steps);
    assert ChannelSound(After(steps), id);
    assert !Pending(After(steps), id, index);
  }

  // ---------------------------------------------------- one broadcaster, as in the service

  /** The single polling loop starts a broadcast only when its last one has returned. */
  predicate OneBroadcaster(steps: seq<Step>) {
    steps == []
    || (OneBroadcaster(steps[..|steps| - 1])
        && (steps[|steps| - 1].Begin? ==> After(steps[..|steps| - 1]).readers == map[]))
  }

  ghost predicate InSequence(s: State, id: nat)
    requires id in s.channels
  {
    var c := s.channels[id];
    && (forall k :: 0 <= k < |c.offers| ==> c.offers[k].index == c.from + k)
    && (forall index :: Pending(s, id, index) ==> index == c.from + |c.offers|)
  }

  ghost predicate Sequential(s: State) {
    && (forall i, j :: i in s.readers && j in s.readers ==> i == j)
    && (forall id :: id in s.channels ==> InSequence(s, id))
  }

  /** With nothing under way, the offers in sequence are as many as the broadcasts of the subscription. */
  lemma SequenceIsComplete(s: State, id: nat)
    requires Invariant(s) && id in s.channels && InSequence(s, id) && forall index :: !Pending(s, id, index)
    ensures var c := s.channels[id]; c.from + |c.offers| == Extent(s, c)
  {
    var c := s.channels[id];
    assert ChannelSound(s, id);
    if |c.offers| > 0 {
      assert c.offers[|c.offers| - 1].index < Extent(s, c);
    }
    assert !WasOffered(c, c.from + |c.offers|);
  }

  lemma BeginKeepsSequence(s: State, price: Price, id: nat)
    requires Invariant(s) && s.readers == map[] && id in s.channels && InSequence(s, id)
    ensures InSequence(Next(s, Begin(price)), id)
  {
    var next := Next(s, Begin(price));
    assert forall index :: !Pending(s, id, index);
    SequenceIsComplete(s, id);
    assert forall index :: Pending(next, id, index) ==> index == |s.broadcasts| && !s.channels[id].closed;
  }

  lemma OthersKeepSequence(s: State, step: Step, id: nat)
    requires Registry(s) && Sequential(s) && !step.Begin? && id in Next(s, step).channels
    ensures InSequence(Next(s, step), id)
  {
    var next := Next(s, step);
    assert forall index :: Pending(next, id, index) ==> Pending(s, id, index);
    if id in s.channels {
      assert InSequence(s, id);
      if step.Send? && Enabled(s, step) {
        assert Pending(s, step.id, step.index);
      }
    }
  }

  lemma SequentialIsKept(s: State, step: Step)
    requires Invariant(s) && Sequential(s) && (step.Begin? ==> s.readers == map[])
    ensures Sequential(Next(s, step))
  {
    forall id | id in Next(s, step).channels
      ensures InSequence(Next(s, step), id)
    {
      if step.Begin? { BeginKeepsSequence(s, step.price, id); } else { OthersKeepSequence(s, step, id); }
    }
    hide InSequence, Invariant;
  }

  lemma {:induction false} SequentialAlways(steps: seq<Step>)
    requires OneBroadcaster(steps)
    ensures Sequential(After(steps))
  {
    if steps != [] {
      SequentialAlways(steps[..|steps| - 1]);
      InvariantAlways(steps[..|steps| - 1]);
      SequentialIsKept(After(steps[..|steps| - 1]), steps[|steps| - 1]);
    }
  }

  /** The prices that met fewer than 64 waiting, in order. */
  function Survivors(prices: seq<Price>, waiting: seq<nat>): seq<Price>
    requires |prices| == |waiting|
  {
    if prices == [] then []
    else
      var n := |prices| - 1;
      Survivors(prices[..n], waiting[..n]) + (if waiting[n] < 64 then [prices[n]] else [])
  }

  function Waiting(offers: seq<Offer>): (waiting: seq<nat>)
    ensures |waiting| == |offers| && forall k :: 0 <= k < |offers| ==> waiting[k] == offers[k].waiting
  {
    seq(|offers|, k requires 0 <= k < |offers| => offers[k].waiting)
  }

  predicate Follows(offers: seq<Offer>, prices: seq<Price>) {
    && |offers| == |prices|
    && forall k :: 0 <= k < |offers| ==>
        offers[k].price == prices[k] && (offers[k].kept <==> offers[k].waiting < 64)
  }

  lemma {:induction false} KeptSurvive(offers: seq<Offer>, prices: seq<Price>)
    requires Follows(offers, prices)
    ensures |offers| == |prices| && Kept(offers) == Survivors(prices, Waiting(offers))
  {
    if offers != [] {
      var n := |offers| - 1;
      KeptSurvive(offers[..n], prices[..n]);
      assert Waiting(offers)[..n] == Waiting(offers[..n]);
    }
  }

  lemma OffersFollowBroadcasts(s: State, id: nat)
    requires Invariant(s) && Sequential(s) && id in s.channels
    ensures var c := s.channels[id];
      && c.from + |c.offers| <= |s.broadcasts| && c.received + c.buffer == Kept(c.offers)
      && (s.readers == map[] ==> c.from + |c.offers| == Extent(s, c))
      && forall k :: 0 <= k < |c.offers| ==>
          c.offers[k].price == s.broadcasts[c.from + k] && (c.offers[k].kept <==> c.offers[k].waiting < 64)
  {
    var c := s.channels[id];
    assert ChannelSound(s, id) && InSequence(s, id);
    hide Registry, AllOffered, OfferedOnce, Kept;
    assert |c.offers| > 0 ==> c.offers[|c.offers| - 1].index < Extent(s, c);
    if s.readers == map[] {
      assert forall index :: !Pending(s, id, index);
      SequenceIsComplete(s, id);
    }
  }

  lemma SequentialFollows(s: State, id: nat)
    requires Invariant(s) && Sequential(s) && id in s.channels
    ensures var c := s.channels[id]; var seen := c.from + |c.offers|;
      && seen <= |s.broadcasts| && (s.readers == map[] ==> seen == Extent(s, c))
      && c.received + c.buffer == Kept(c.offers) && Follows(c.offers, s.broadcasts[c.from..seen])
  {
    OffersFollowBroadcasts(s, id);
    hide Invariant, Sequential, Kept;
  }

  /** With the single polling loop, a subscriber gets the broadcasts begun since it subscribed, in their order, and
      misses exactly those that met 64 prices waiting. */
  lemma DeliveredInBroadcastOrder(steps: seq<Step>, id: nat)
    requires OneBroadcaster(steps) && id in After(steps).channels
    ensures var s := After(steps); var c := s.channels[id]; var seen := c.from + |c.offers|;
      && seen <= |s.broadcasts| && (s.readers == map[] ==> seen == Extent(s, c))
      && c.received + c.buffer == Survivors(s.broadcasts[c.from..seen], Waiting(c.offers))
  {
    hide *;
    var s := After(steps);
    var c := s.channels[id];
    InvariantAlways(steps);
    SequentialAlways(steps);
    SequentialFollows(s, id);
    KeptSurvive(c.offers, s.broadcasts[c.from..c.from + |c.offers|]);
  }

  lemma {:induction false} AllSurvive(prices: seq<Price>, waiting: seq<nat>)
    requires |prices| == |waiting| && forall k :: 0 <= k < |waiting| ==> waiting[k] < 64
    ensures Survivors(prices, waiting) == prices
  {
    if prices != [] {
      AllSurvive(prices[..|prices| - 1], waiting[..|prices| - 1]);
    }
  }

  /** A subscriber whose buffer was never full got every price of its subscription, in broadcast order. */
  lemma NothingIsLost(steps: seq<Step>, id: nat)
    requires OneBroadcaster(steps) && id in After(steps).channels && After(steps).readers == map[]
    requires var c := After(steps).channels[id]; forall k :: 0 <= k < |c.offers| ==> c.offers[k].waiting < 64
    ensures var s := After(steps); var c := s.channels[id];
      c.from <= Extent(s, c) <= |s.broadcasts| && c.received + c.buffer == s.broadcasts[c.from..Extent(s, c)]
  {
    var s := After(steps);
    var c := s.channels[id];
    DeliveredInBroadcastOrder(steps, id);
    AllSurvive(s.broadcasts[c.from..Extent(s, c)], Waiting(c.offers));
  }

  lemma ClosedStep(s: State, step: Step, id: nat)
    requires Registry(s) && id in s.channels && s.channels[id].closed
    ensures id in Next(s, step).channels && Next(s, step).channels[id].closed && id !in Next(s, step).registered
    ensures Next(s, step).channels[id].offers == s.channels[id].offers
  {
  }

  lemma UnsubscribedAtOnce(s: State, id: nat)
    requires Registry(s) && id in s.registered && s.readers == map[]
    ensures var t := Next(s, Unsubscribe(id));
      && id in s.channels && id in t.channels && t.channels[id].closed && id !in t.registered
      && t.channels[id].offers == s.channels[id].offers
  {
  }

  lemma RegistryAlways(steps: seq<Step>)
    ensures Registry(After(steps))
  {
    InvariantAlways(steps);
    hide Registry, ChannelSound;
  }

  /** Unsubscribing closes the channel of that subscription for good: whatever follows, it is offered nothing more. */
  lemma {:induction false} UnsubscribeIsFinal(steps: seq<Step>, id: nat, more: seq<Step>)
    requires id in After(steps).registered && After(steps).readers == map[]
    ensures var s := After(steps + [Unsubscribe(id)] + more);
      && id in s.channels && s.channels[id].closed && id !in s.registered
      && id in After(steps).channels && s.channels[id].offers == After(steps).channels[id].offers
    decreases |more|
  {
    var run := steps + [Unsubscribe(id)];
    if more == [] {
      assert run[..|steps|] == steps && run + more == run;
      assert After(run) == Next(After(steps), Unsubscribe(id));
      hide *;
      RegistryAlways(steps);
      UnsubscribedAtOnce(After(steps), id);
    } else {
      var front := more[..|more| - 1];
      assert (run + more)[..|run + more| - 1] == run + front;
      assert After(run + more) == Next(After(run + front), more[|more| - 1]);
      hide *;
      UnsubscribeIsFinal(steps, id, front);
      RegistryAlways(run + front);
      ClosedStep(After(run + front), more[|more| - 1], id);
    }
  }

  // ---------------------------------------------------------------- the service in place

  /** A Go channel of capacity 64; `id` is the subscription that it was made for. */
  class PriceChannel {
    ghost const id: nat
    var buffer: seq<Price>
    var closed: bool

    constructor (ghost id: nat)
      ensures this.id == id && buffer == [] && !closed
    {
      this.id := id;
      buffer, closed := [], false;
    }

    method TrySend(price: Price)
      requires !closed
      modifies this`buffer
      ensures buffer == Buffered(old(buffer), price)
    {
      if |buffer| < CAPACITY {
        buffer := buffer + [price];
      }
    }

    method Close()
      requires !closed
      modifies this`closed
      ensures closed
    {
      closed := true;
    }
  }

  class Service {
    var subscribersByID: map<nat, PriceChannel>
    var nextSubID: nat

    ghost predicate Valid()
      reads this, subscribersByID.Values
    {
      forall id :: id in subscribersByID ==>
        1 <= id <= nextSubID && subscribersByID[id].id == id && !subscribersByID[id].closed
    }

    constructor ()
      ensures Valid() && subscribersByID == map[] && nextSubID == 0
    {
      subscribersByID, nextSubID := map[], 0;
    }

    method Subscribe() returns (id: nat, ch: PriceChannel)
      requires Valid()
      modifies this
      ensures Valid() && fresh(ch) && ch.buffer == [] && id !in old(subscribersByID)
      ensures subscribersByID == old(subscribersByID)[id := ch] && nextSubID == old(nextSubID) + 1 == id
    {
      nextSubID := nextSubID + 1;
      id := nextSubID;
      ch := new PriceChannel(id);
      subscribersByID := subscribersByID[id := ch];
    }

    /** The unsubscribe closure: a second call finds nothing to close. */
    method Unsubscribe(id: nat)
      requires Valid()
      modifies this`subscribersByID, subscribersByID.Values
      ensures Valid() && subscribersByID == old(subscribersByID) - {id}
      ensures forall k :: k in old(subscribersByID) ==>
        old(subscribersByID)[k].closed == (k == id) && old(subscribersByID)[k].buffer == old(subscribersByID[k].buffer)
    {
      if id !in subscribersByID {
        assert subscribersByID - {id} == subscribersByID;
        return;
      }
      var existing := subscribersByID[id];
      subscribersByID := subscribersByID - {id};
      existing.Close();
    }

    /** Every subscriber is offered the price once, in whatever order the map yields them. */
    method Broadcast(price: Price)
      requires Valid()
      modifies subscribersByID.Values
      ensures Valid()
      ensures forall id :: id in subscribersByID ==>
        subscribersByID[id].buffer == Buffered(old(subscribersByID[id].buffer), price)
    {
      var rest := subscribersByID.Keys;
      while rest != {}
        invariant rest <= subscribersByID.Keys && Valid()
        invariant forall id :: id in subscribersByID ==>
          subscribersByID[id].buffer == (if id in rest then old(subscribersByID[id].buffer)
                                         else Buffered(old(subscribersByID[id].buffer), price))
        decreases |rest|
      {
        var id :| id in rest;
        subscribersByID[id].TrySend(price);
        rest := rest - {id};
      }
    }
  }
}
