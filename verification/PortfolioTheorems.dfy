/** What every run of the portfolio service keeps: the net-position ledger, the accounting
    identity and the mark-to-market agreement, for all users and all redelivery patterns. */
module PortfolioTheorems {
  import opened Wrappers
  import opened Sequences
  import opened PortfolioLedger

  // ------------------------------------------- independent view of an event stream

  predicate IsFillWithID(e: Event, id: string) {
    e.Filled? && e.fill.executionID == id
  }

  /** The first occurrence of every execution ID, in delivery order. */
  function Applied(events: seq<Event>): seq<Fill> {
    if events == [] then []
    else if Last(events).Filled? && !exists e :: e in Front(events) && IsFillWithID(e, Last(events).fill.executionID)
      then Applied(Front(events)) + [Last(events).fill]
      else Applied(Front(events))
  }

  /** The quantity of a fill, negative for a sale; a fill on an unknown side moves nothing. */
  function SignedFill(f: Fill): real {
    match ParseSide(f.side)
    case None => 0.0
    case Some(side) => Signed(side, f.quantity)
  }

  function NetQuantity(fs: seq<Fill>, user: string, symbol: string): real {
    if fs == [] then 0.0
    else NetQuantity(Front(fs), user, symbol)
         + (if Last(fs).user == user && Last(fs).symbol == symbol then SignedFill(Last(fs)) else 0.0)
  }

  /** What a fill pays (negative) or receives. */
  function CashFlow(f: Fill): real {
    -SignedFill(f) * f.price
  }

  function NetCash(fs: seq<Fill>, user: string): real {
    if fs == [] then 0.0
    else NetCash(Front(fs), user)
         + (if Last(fs).user == user then CashFlow(Last(fs)) else 0.0)
  }

  ghost predicate Delivered(events: seq<Event>, id: string) {
    exists e :: e in events && IsFillWithID(e, id)
  }

  lemma DeliveredLast(events: seq<Event>, id: string)
    requires events != []
    ensures Delivered(events, id) <==> Delivered(Front(events), id) || IsFillWithID(Last(events), id)
  {
    assert events == Front(events) + [Last(events)];
  }

  lemma SeenLast(events: seq<Event>, id: string)
    requires NonNegative(events) && events != []
    ensures NonNegative(Front(events))
    ensures id in Run(events).seen <==> id in Run(Front(events)).seen || IsFillWithID(Last(events), id)
  {
    hide ApplyFill, WellFormedBook, Repriced, DividesByZero;
    FrontNonNegative(events);
    if Last(events).Filled? {
      HandleIsDefined(Run(Front(events)), Last(events).fill);
    }
  }

  lemma {:induction false} SeenIsDelivered(events: seq<Event>, id: string)
    requires NonNegative(events)
    ensures id in Run(events).seen <==> Delivered(events, id)
    decreases |events|
  {
    if events != [] {
      hide *;
      SeenLast(events, id);
      DeliveredLast(events, id);
      SeenIsDelivered(Front(events), id);
    }
  }

  // --------------------------------------------------- one event at the end of a run

  ghost predicate AppliesTo(s: State, e: Event, user: string) {
    e.Filled? && e.fill.user == user && e.fill.executionID !in s.seen
  }

  lemma HandleBook(s: State, f: Fill, user: string)
    requires !DividesByZero(BookOf(s, f.user), f)
    ensures BookOf(Handle(s, f), user)
            == if f.executionID in s.seen || f.user != user then BookOf(s, user) else ApplyFill(BookOf(s, user), f)
  {
  }

  lemma RunLast(events: seq<Event>, user: string)
    requires NonNegative(events) && events != []
    ensures NonNegative(Front(events))
    ensures Last(events).Filled? && Last(events).fill.user == user ==>
              !DividesByZero(BookOf(Run(Front(events)), user), Last(events).fill)
    ensures var s := Run(Front(events));
      BookOf(Run(events), user) ==
        if AppliesTo(s, Last(events), user) then ApplyFill(BookOf(s, user), Last(events).fill)
        else if Last(events).Priced? && Last(events).user == user && user in s.books
          then Repriced(BookOf(s, user), Last(events).prices)
        else BookOf(s, user)
  {
    hide ApplyFill, WellFormedBook, Repriced, DividesByZero;
    FrontNonNegative(events);
    var s := Run(Front(events));
    if Last(events).Filled? {
      HandleIsDefined(s, Last(events).fill);
      HandleBook(s, Last(events).fill, user);
    }
  }

  lemma LastApplied(events: seq<Event>, user: string)
    requires NonNegative(events) && events != []
    requires NonNegative(Front(events)) && AppliesTo(Run(Front(events)), Last(events), user)
    ensures Last(events).fill.user == user && Last(events).fill.quantity >= 0.0
    ensures !DividesByZero(BookOf(Run(Front(events)), user), Last(events).fill)
    ensures WellFormedBook(BookOf(Run(Front(events)), user))
  {
    hide ApplyFill;
    FrontNonNegative(events);
    HandleIsDefined(Run(Front(events)), Last(events).fill);
    BookOfIsWellFormed(Run(Front(events)), user);
  }

  lemma AppliedLast(events: seq<Event>)
    requires NonNegative(events) && events != [] && Last(events).Filled?
    ensures NonNegative(Front(events))
    ensures Applied(events) == Applied(Front(events))
      + (if Last(events).fill.executionID in Run(Front(events)).seen then [] else [Last(events).fill])
  {
    FrontNonNegative(events);
    SeenIsDelivered(Front(events), Last(events).fill.executionID);
  }

  // ----------------------------------------------------------- net position ledger

  function HeldIn(b: Book, symbol: string): real {
    if symbol in b.holdings then SignedQuantity(b.holdings[symbol]) else 0.0
  }

  lemma ApplyFillHeld(b: Book, f: Fill, symbol: string)
    requires WellFormedBook(b) && f.quantity >= 0.0 && !DividesByZero(b, f)
    ensures HeldIn(ApplyFill(b, f), symbol)
            == HeldIn(b, symbol) + (if f.symbol == symbol then SignedFill(f) else 0.0)
  {
  }

  lemma NetQuantityLast(events: seq<Event>, user: string, symbol: string)
    requires NonNegative(events) && events != []
    ensures NonNegative(Front(events))
    ensures NetQuantity(Applied(events), user, symbol) == NetQuantity(Applied(Front(events)), user, symbol)
        + (if AppliesTo(Run(Front(events)), Last(events), user) && Last(events).fill.symbol == symbol
           then SignedFill(Last(events).fill) else 0.0)
  {
    FrontNonNegative(events);
    if Last(events).Filled? {
      AppliedLast(events);
    }
  }

  lemma LastAppliedHeld(events: seq<Event>, user: string, symbol: string)
    requires NonNegative(events) && events != []
    requires NonNegative(Front(events)) && AppliesTo(Run(Front(events)), Last(events), user)
    ensures var b := BookOf(Run(Front(events)), user); var f := Last(events).fill;
      && !DividesByZero(b, f)
      && HeldIn(ApplyFill(b, f), symbol) == HeldIn(b, symbol) + (if f.symbol == symbol then SignedFill(f) else 0.0)
  {
    hide ApplyFill, HeldIn, SignedFill;
    LastApplied(events, user);
    ApplyFillHeld(BookOf(Run(Front(events)), user), Last(events).fill, symbol);
  }

  lemma HeldLast(events: seq<Event>, user: string, symbol: string)
    requires NonNegative(events) && events != []
    ensures NonNegative(Front(events))
    ensures HeldIn(BookOf(Run(events), user), symbol) == HeldIn(BookOf(Run(Front(events)), user), symbol)
        + (if AppliesTo(Run(Front(events)), Last(events), user) && Last(events).fill.symbol == symbol
           then SignedFill(Last(events).fill) else 0.0)
  {
    hide ApplyFill, HeldIn, SignedFill, Repriced, WellFormedBook;
    RunLast(events, user);
    if AppliesTo(Run(Front(events)), Last(events), user) {
      LastAppliedHeld(events, user, symbol);
    } else if Last(events).Priced? {
      RepricedHeld(BookOf(Run(Front(events)), user), Last(events).prices, symbol);
    }
  }

  /** Each symbol's signed holding is the sum of the signed quantities of the first occurrences. */
  lemma {:induction false} NetPosition(events: seq<Event>, user: string, symbol: string)
    requires NonNegative(events)
    ensures HeldIn(BookOf(Run(events), user), symbol) == NetQuantity(Applied(events), user, symbol)
    decreases |events|
  {
    if events != [] {
      hide *;
      NetQuantityLast(events, user, symbol);
      HeldLast(events, user, symbol);
      NetPosition(Front(events), user, symbol);
    }
  }

  lemma RepricedHeld(b: Book, prices: map<string, real>, symbol: string)
    ensures HeldIn(Repriced(b, prices), symbol) == HeldIn(b, symbol)
  {
  }

  /** No position is stored exactly when the sum is zero, and stored quantities are positive. */
  lemma StoredIffNotFlat(events: seq<Event>, user: string, symbol: string)
    requires NonNegative(events)
    ensures symbol in BookOf(Run(events), user).holdings
            <==> NetQuantity(Applied(events), user, symbol) != 0.0
    ensures symbol in BookOf(Run(events), user).holdings
            ==> BookOf(Run(events), user).holdings[symbol].quantity > 0.0
  {
    NetPosition(events, user, symbol);
    BookOfIsWellFormed(Run(events), user);
  }

  // ------------------------------------------------------------ average entry price

  predicate PricedWithin(fs: seq<Fill>, user: string, symbol: string, lo: real, hi: real) {
    forall f :: f in fs && f.user == user && f.symbol == symbol && !Ignored(f) ==> lo <= f.price <= hi
  }

  predicate AverageWithin(b: Book, symbol: string, lo: real, hi: real) {
    symbol in b.holdings ==> lo <= b.holdings[symbol].average <= hi
  }

  lemma NotNegative(x: real, t: real)
    requires t > 0.0 && x * t >= 0.0
    ensures x >= 0.0
  {
  }

  lemma WeightedMean(a: real, q: real, p: real, r: real, lo: real, hi: real)
    requires q > 0.0 && r > 0.0 && lo <= a <= hi && lo <= p <= hi
    ensures lo <= (a * q + p * r) / (q + r) <= hi
  {
    var t := q + r;
    var m := (a * q + p * r) / t;
    assert m * t == a * q + p * r;
    assert (m - lo) * t == (a - lo) * q + (p - lo) * r >= 0.0;
    assert (hi - m) * t == (hi - a) * q + (hi - p) * r >= 0.0;
    NotNegative(m - lo, t);
    NotNegative(hi - m, t);
  }

  lemma EnlargedAverage(h: Holding, quantity: real, price: real, lo: real, hi: real)
    requires h.quantity > 0.0 && quantity > 0.0 && lo <= h.average <= hi && lo <= price <= hi
    ensures lo <= Enlarged(h, quantity, price).average <= hi
  {
    WeightedMean(h.average, h.quantity, price, quantity, lo, hi);
  }

  lemma ApplyFillAverage(b: Book, f: Fill, symbol: string, lo: real, hi: real)
    requires WellFormedBook(b) && f.quantity >= 0.0 && !DividesByZero(b, f)
    requires AverageWithin(b, symbol, lo, hi)
    requires f.symbol == symbol && !Ignored(f) ==> lo <= f.price <= hi
    ensures AverageWithin(ApplyFill(b, f), symbol, lo, hi)
  {
    if f.symbol == symbol && Adds(b, f) {
      EnlargedAverage(b.holdings[symbol], f.quantity, f.price, lo, hi);
    }
    hide WellFormedBook, Enlarged, SumBy, ClosedPnL;
  }

  lemma PricedWithinLast(events: seq<Event>, user: string, symbol: string, lo: real, hi: real)
    requires NonNegative(events) && events != []
    requires PricedWithin(Applied(events), user, symbol, lo, hi)
    ensures NonNegative(Front(events))
    ensures PricedWithin(Applied(Front(events)), user, symbol, lo, hi)
    ensures AppliesTo(Run(Front(events)), Last(events), user)
            && Last(events).fill.symbol == symbol && !Ignored(Last(events).fill)
            ==> lo <= Last(events).fill.price <= hi
  {
    FrontNonNegative(events);
    if AppliesTo(Run(Front(events)), Last(events), user) {
      AppliedLast(events);
      assert Last(events).fill in Applied(events);
    }
  }

  lemma LastAppliedAverage(events: seq<Event>, user: string, symbol: string, lo: real, hi: real)
    requires NonNegative(events) && events != []
    requires NonNegative(Front(events)) && AppliesTo(Run(Front(events)), Last(events), user)
    requires AverageWithin(BookOf(Run(Front(events)), user), symbol, lo, hi)
    requires Last(events).fill.symbol == symbol && !Ignored(Last(events).fill) ==> lo <= Last(events).fill.price <= hi
    ensures var b := BookOf(Run(Front(events)), user); var f := Last(events).fill;
      !DividesByZero(b, f) && AverageWithin(ApplyFill(b, f), symbol, lo, hi)
  {
    hide ApplyFill, AverageWithin;
    LastApplied(events, user);
    ApplyFillAverage(BookOf(Run(Front(events)), user), Last(events).fill, symbol, lo, hi);
  }

  /** The average entry of a position lies within any price band that holds all the fills
      applied to its symbol, in particular between the lowest and the highest of them. */
  lemma {:induction false} AverageWithinPriceBand(events: seq<Event>, user: string, symbol: string, lo: real, hi: real)
    requires NonNegative(events)
    requires PricedWithin(Applied(events), user, symbol, lo, hi)
    ensures AverageWithin(BookOf(Run(events), user), symbol, lo, hi)
    decreases |events|
  {
    if events != [] {
      hide *;
      PricedWithinLast(events, user, symbol, lo, hi);
      RunLast(events, user);
      AverageWithinPriceBand(Front(events), user, symbol, lo, hi);
      var b := BookOf(Run(Front(events)), user);
      if AppliesTo(Run(Front(events)), Last(events), user) {
        LastAppliedAverage(events, user, symbol, lo, hi);
      } else if Last(events).Priced? {
        RepricedAverage(b, Last(events).prices, symbol, lo, hi);
      }
    }
  }

  lemma RepricedAverage(b: Book, prices: map<string, real>, symbol: string, lo: real, hi: real)
    requires AverageWithin(b, symbol, lo, hi)
    ensures AverageWithin(Repriced(b, prices), symbol, lo, hi)
  {
  }

  // ------------------------------------------------------------ accounting identity

  /** What a partial close gains and the source leaves out of the balance. */
  function UnbookedGain(b: Book, f: Fill): real {
    if PartlyCloses(b, f)
      then Signed(b.holdings[f.symbol].side, f.quantity) * (f.price - b.holdings[f.symbol].average)
      else 0.0
  }

  /** The fees the source charges: those of exact closes only. */
  function ChargedFee(b: Book, f: Fill): real {
    if ExactlyCloses(b, f) then f.fees else 0.0
  }

  /** Sum of an effect over the applied fills of one user, each seen against the book it met. */
  ghost function Total(events: seq<Event>, user: string, effect: (Book, Fill) -> real): real
    requires NonNegative(events)
  {
    if events == [] then 0.0
    else
      FrontNonNegative(events);
      var s := Run(Front(events));
      Total(Front(events), user, effect)
      + (if Last(events).Filled? && Last(events).fill.user == user && Last(events).fill.executionID !in s.seen
         then effect(BookOf(s, user), Last(events).fill) else 0.0)
  }

  /** Balance less the cost of the open positions. */
  ghost function CashOf(b: Book): real {
    b.balance - SumBy(b.holdings, SignedCost)
  }

  lemma EnlargedCost(h: Holding, quantity: real, price: real)
    requires h.quantity + quantity != 0.0
    ensures SignedCost(Enlarged(h, quantity, price)) == SignedCost(h) + Signed(h.side, quantity) * price
  {
    var total := h.quantity + quantity;
    var average := (h.average * h.quantity + price * quantity) / total;
    assert average * total == h.average * h.quantity + price * quantity;
  }

  lemma SumByDrop(b: Book, symbol: string, f: Holding -> real)
    requires symbol in b.holdings
    ensures SumBy(b.holdings - {symbol}, f) == SumBy(b.holdings, f) - f(b.holdings[symbol])
  {
    SumByRemove(b.holdings, symbol, f);
  }

  lemma OpenCash(b: Book, f: Fill)
    requires !Ignored(f) && f.symbol !in b.holdings && f.quantity > 0.0
    ensures CashOf(ApplyFill(b, f)) == CashOf(b) + CashFlow(f)
  {
    var side := ParseSide(f.side).value;
    var entry := Opened(side, f.quantity, f.price);
    assert ApplyFill(b, f).holdings == b.holdings[f.symbol := entry] && ApplyFill(b, f).balance == b.balance;
    assert SignedCost(entry) == Signed(side, f.quantity) * f.price == -CashFlow(f);
    hide ApplyFill, SumBy, SignedCost, Opened, CashFlow;
    SumByUpdate(b.holdings, f.symbol, entry, SignedCost);
  }

  lemma AddTerms(b: Book, f: Fill)
    requires Adds(b, f) && !DividesByZero(b, f)
    ensures var h := b.holdings[f.symbol];
      SignedCost(h) - SignedCost(Enlarged(h, f.quantity, f.price)) == CashFlow(f)
  {
    EnlargedCost(b.holdings[f.symbol], f.quantity, f.price);
    hide SignedCost, Enlarged;
  }

  lemma AddCash(b: Book, f: Fill)
    requires Adds(b, f) && !DividesByZero(b, f)
    ensures CashOf(ApplyFill(b, f)) == CashOf(b) + CashFlow(f)
  {
    ApplyFillCases(b, f);
    AddTerms(b, f);
    hide ApplyFill, SumBy, SignedCost, Enlarged, CashFlow;
    SumByUpdate(b.holdings, f.symbol, Enlarged(b.holdings[f.symbol], f.quantity, f.price), SignedCost);
  }

  lemma PartlyClosedCost(h: Holding, side: Side, quantity: real, price: real)
    requires side != h.side
    ensures SignedCost(h) - SignedCost(Marked(h.(quantity := h.quantity - quantity), price))
            == -Signed(side, quantity) * price - Signed(h.side, quantity) * (price - h.average)
  {
  }

  lemma PartlyCloseTerms(b: Book, f: Fill)
    requires PartlyCloses(b, f)
    ensures var h := b.holdings[f.symbol];
      SignedCost(h) - SignedCost(Marked(h.(quantity := h.quantity - f.quantity), f.price))
      == CashFlow(f) - UnbookedGain(b, f)
  {
    PartlyClosedCost(b.holdings[f.symbol], ParseSide(f.side).value, f.quantity, f.price);
    hide SignedCost;
  }

  lemma PartlyCloseCash(b: Book, f: Fill)
    requires PartlyCloses(b, f)
    ensures CashOf(ApplyFill(b, f)) == CashOf(b) + CashFlow(f) - UnbookedGain(b, f)
  {
    var h := b.holdings[f.symbol];
    var rest := Marked(h.(quantity := h.quantity - f.quantity), f.price);
    ApplyFillCases(b, f);
    PartlyCloseTerms(b, f);
    hide ApplyFill, SumBy, SignedCost, Marked, CashFlow, UnbookedGain;
    SumByUpdate(b.holdings, f.symbol, rest, SignedCost);
  }

  lemma ExactCloseCash(b: Book, f: Fill)
    requires ExactlyCloses(b, f)
    ensures CashOf(ApplyFill(b, f)) == CashOf(b) + CashFlow(f) - ChargedFee(b, f)
  {
    SumByDrop(b, f.symbol, SignedCost);
  }

  lemma FlipCost(h: Holding, side: Side, quantity: real, price: real)
    requires side != h.side
    ensures ClosedPnL(h, price) + SignedCost(h) - SignedCost(Opened(side, quantity - h.quantity, price))
            == -Signed(side, quantity) * price
  {
  }

  lemma FlipTerms(b: Book, f: Fill)
    requires Flips(b, f)
    ensures var h := b.holdings[f.symbol];
      var reopened := Opened(ParseSide(f.side).value, f.quantity - h.quantity, f.price);
      ClosedPnL(h, f.price) + SignedCost(h) - SignedCost(reopened) == CashFlow(f)
  {
    FlipCost(b.holdings[f.symbol], ParseSide(f.side).value, f.quantity, f.price);
    hide SignedCost, ClosedPnL, Opened;
  }

  lemma FlippedBook(b: Book, f: Fill)
    requires Flips(b, f)
    ensures var h := b.holdings[f.symbol]; var c := ApplyFill(b, f);
      && c.holdings == b.holdings[f.symbol := Opened(ParseSide(f.side).value, f.quantity - h.quantity, f.price)]
      && c.balance == b.balance + ClosedPnL(h, f.price)
  {
    ApplyFillCases(b, f);
    hide SumBy, ClosedPnL, ApplyFill;
  }

  lemma FlipCash(b: Book, f: Fill)
    requires Flips(b, f)
    ensures CashOf(ApplyFill(b, f)) == CashOf(b) + CashFlow(f)
  {
    var h := b.holdings[f.symbol];
    hide ApplyFill, SumBy, SignedCost, ClosedPnL, Opened, CashFlow, Flips;
    FlippedBook(b, f);
    FlipTerms(b, f);
    SumByUpdate(b.holdings, f.symbol, Opened(ParseSide(f.side).value, f.quantity - h.quantity, f.price), SignedCost);
  }

  lemma ApplyFillCash(b: Book, f: Fill)
    requires f.quantity >= 0.0 && !DividesByZero(b, f)
    ensures CashOf(ApplyFill(b, f))
            == CashOf(b) + CashFlow(f) - UnbookedGain(b, f) - ChargedFee(b, f)
  {
    hide CashOf;
    if Ignored(f) {
      assert ApplyFill(b, f) == b && SignedFill(f) == 0.0;
    } else {
      hide ApplyFill, SignedFill;
      if f.symbol !in b.holdings { OpenCash(b, f); }
      else if Adds(b, f) { AddCash(b, f); }
      else if PartlyCloses(b, f) { PartlyCloseCash(b, f); }
      else if ExactlyCloses(b, f) { ExactCloseCash(b, f); }
      else { FlipCash(b, f); }
    }
  }

  lemma RepricedCash(b: Book, prices: map<string, real>)
    ensures CashOf(Repriced(b, prices)) == CashOf(b)
  {
    SumBySame(MarkedAll(b.holdings, prices), b.holdings, SignedCost);
  }

  lemma TotalLast(events: seq<Event>, user: string, effect: (Book, Fill) -> real)
    requires NonNegative(events) && events != []
    ensures NonNegative(Front(events))
    ensures var s := Run(Front(events));
      Total(events, user, effect) == Total(Front(events), user, effect)
        + (if AppliesTo(s, Last(events), user) then effect(BookOf(s, user), Last(events).fill) else 0.0)
  {
    FrontNonNegative(events);
  }

  lemma NetCashLast(events: seq<Event>, user: string)
    requires NonNegative(events) && events != []
    ensures NonNegative(Front(events))
    ensures NetCash(Applied(events), user) == NetCash(Applied(Front(events)), user)
        + (if AppliesTo(Run(Front(events)), Last(events), user) then CashFlow(Last(events).fill) else 0.0)
  {
    FrontNonNegative(events);
    if Last(events).Filled? {
      AppliedLast(events);
    }
  }

  lemma LastAppliedCash(events: seq<Event>, user: string)
    requires NonNegative(events) && events != []
    requires NonNegative(Front(events)) && AppliesTo(Run(Front(events)), Last(events), user)
    ensures var b := BookOf(Run(Front(events)), user); var f := Last(events).fill;
      && !DividesByZero(b, f)
      && CashOf(ApplyFill(b, f)) == CashOf(b) + CashFlow(f) - UnbookedGain(b, f) - ChargedFee(b, f)
  {
    hide ApplyFill, CashOf, CashFlow, UnbookedGain, ChargedFee;
    LastApplied(events, user);
    ApplyFillCash(BookOf(Run(Front(events)), user), Last(events).fill);
  }

  lemma {:induction false} CashIdentity(events: seq<Event>, user: string)
    requires NonNegative(events)
    ensures CashOf(BookOf(Run(events), user))
            == INITIAL_BALANCE + NetCash(Applied(events), user)
               - Total(events, user, UnbookedGain) - Total(events, user, ChargedFee)
    decreases |events|
  {
    if events != [] {
      hide *;
      TotalLast(events, user, UnbookedGain);
      TotalLast(events, user, ChargedFee);
      NetCashLast(events, user);
      RunLast(events, user);
      CashIdentity(Front(events), user);
      var b := BookOf(Run(Front(events)), user);
      if AppliesTo(Run(Front(events)), Last(events), user) {
        LastAppliedCash(events, user);
      } else if Last(events).Priced? {
        RepricedCash(b, Last(events).prices);
      }
    }
  }

  /** The balance after any run: the initial balance, the cash flow of all fills and the cost of the
      open positions, less the fees of exact closes and the gains of partial closes. */
  lemma AccountingIdentity(events: seq<Event>, user: string)
    requires NonNegative(events)
    ensures var b := BookOf(Run(events), user);
      b.balance == INITIAL_BALANCE + NetCash(Applied(events), user) + SumBy(b.holdings, SignedCost)
                   - Total(events, user, ChargedFee) - Total(events, user, UnbookedGain)
    ensures var b := BookOf(Run(events), user);
      b.realized == b.balance - INITIAL_BALANCE && b.totalPnL == b.realized + b.unrealized
  {
    CashIdentity(events, user);
    BookOfIsWellFormed(Run(events), user);
  }

  lemma UnrealizedIsValueLessCost(b: Book)
    requires WellFormedBook(b)
    ensures SumBy(b.holdings, UnrealizedOf) == SumBy(b.holdings, SignedValue) - SumBy(b.holdings, SignedCost)
  {
    SumByDifference(b.holdings, SignedValue, SignedCost, UnrealizedOf);
  }

  /** Realised plus unrealised PnL is the mark-to-market result of the fills less the charged fees,
      short by exactly the gains of partial closes. */
  lemma MarkToMarket(events: seq<Event>, user: string)
    requires NonNegative(events)
    ensures var b := BookOf(Run(events), user);
      b.realized + SumBy(b.holdings, UnrealizedOf)
      == NetCash(Applied(events), user) + SumBy(b.holdings, SignedValue)
         - Total(events, user, ChargedFee) - Total(events, user, UnbookedGain)
  {
    hide SumBy, WellFormedBook;
    AccountingIdentity(events, user);
    BookOfIsWellFormed(Run(events), user);
    UnrealizedIsValueLessCost(BookOf(Run(events), user));
  }

  // ----------------------------------------------- the gap left by partial closes

  ghost predicate NeverPartlyCloses(events: seq<Event>, user: string)
    requires NonNegative(events)
  {
    events == [] ||
    (FrontNonNegative(events);
     var s := Run(Front(events));
     && NeverPartlyCloses(Front(events), user)
     && (AppliesTo(s, Last(events), user) ==> !PartlyCloses(BookOf(s, user), Last(events).fill)))
  }

  /** Without partial closes the books agree with the mark-to-market result less the charged fees. */
  lemma {:induction false} MarkToMarketWithoutPartialCloses(events: seq<Event>, user: string)
    requires NonNegative(events) && NeverPartlyCloses(events, user)
    ensures var b := BookOf(Run(events), user);
      b.realized + SumBy(b.holdings, UnrealizedOf)
      == NetCash(Applied(events), user) + SumBy(b.holdings, SignedValue) - Total(events, user, ChargedFee)
  {
    NothingUnbooked(events, user);
    MarkToMarket(events, user);
  }

  lemma {:induction false} NothingUnbooked(events: seq<Event>, user: string)
    requires NonNegative(events) && NeverPartlyCloses(events, user)
    ensures Total(events, user, UnbookedGain) == 0.0
  {
    if events != [] {
      TotalLast(events, user, UnbookedGain);
      NothingUnbooked(Front(events), user);
    }
  }

  /** The documentation books (exit - entry) x quantity on every reduction. The code does so for a
      fill exactly when it is not a partial close away from the average entry. */
  lemma GainIsBookedIff(b: Book, f: Fill)
    requires WellFormedBook(b) && f.quantity >= 0.0 && !DividesByZero(b, f)
    ensures CashOf(ApplyFill(b, f)) == CashOf(b) + CashFlow(f) - ChargedFee(b, f)
            <==> !(PartlyCloses(b, f) && f.price != b.holdings[f.symbol].average)
  {
    hide ApplyFill, CashOf, WellFormedBook;
    ApplyFillCash(b, f);
    if PartlyCloses(b, f) && f.price != b.holdings[f.symbol].average {
      assert (f.price - b.holdings[f.symbol].average) * f.quantity != 0.0;
    }
  }

  /** Selling one of two units bought at 10 for 20 leaves a gain of 10 out of the books. */
  lemma PartialCloseLosesGain()
    ensures var b := Put(NEW_BOOK, "BTCUSDT", Opened(Buy, 2.0, 10.0));
      var f := Fill("e2", "u", "BTCUSDT", "SELL", 1.0, 20.0, 0.0);
      ApplyFill(b, f).realized == 0.0 && CashOf(ApplyFill(b, f)) == CashOf(b) + CashFlow(f) - 10.0
  {
    var b := Put(NEW_BOOK, "BTCUSDT", Opened(Buy, 2.0, 10.0));
    var f := Fill("e2", "u", "BTCUSDT", "SELL", 1.0, 20.0, 0.0);
    assert PartlyCloses(b, f);
    ApplyFillCash(b, f);
  }

  /** The fee of a fill is taken from the balance exactly when the fill closes its position to zero; opening, adding,
      partly closing and flipping are free. */
  lemma FeeIsChargedIff(b: Book, f: Fill)
    requires !DividesByZero(b, f)
    ensures !DividesByZero(b, f.(fees := 0.0))
    ensures ApplyFill(b, f).balance == ApplyFill(b, f.(fees := 0.0)).balance - f.fees
            <==> ExactlyCloses(b, f) || f.fees == 0.0
  {
    hide SumBy, Enlarged, Marked, ClosedPnL;
  }

  /** The fee of a first fill is never taken: the balance is the initial one. */
  lemma OpeningIsFree(events: seq<Event>, f: Fill)
    requires |events| == 1 && events[0] == Filled(f) && f.quantity > 0.0 && ParseSide(f.side).Some?
    ensures NonNegative(events) && BookOf(Run(events), f.user).balance == INITIAL_BALANCE
  {
    FirstFill(events, f);
  }

  // ------------------------------------------------------------- stale portfolio totals

  ghost predicate Fresh(b: Book) {
    b.unrealized == SumBy(b.holdings, UnrealizedOf)
  }

  lemma AddedUnrealized(h: Holding, quantity: real, price: real)
    requires Agrees(h) && h.quantity > 0.0 && quantity > 0.0
    ensures Enlarged(h, quantity, price).unrealized == h.unrealized <==> price == h.current
  {
    var g := Enlarged(h, quantity, price);
    assert g.average * g.quantity == h.average * h.quantity + price * quantity;
    var rise := (price - h.current) * h.quantity;
    assert g.unrealized - h.unrealized == if h.side.Buy? then rise else -rise;
    assert rise == 0.0 <==> price == h.current;
  }

  lemma RestUnrealized(h: Holding, quantity: real, price: real)
    requires Agrees(h)
    ensures Marked(h.(quantity := h.quantity - quantity), price).unrealized == h.unrealized
            <==> (price - h.average) * (h.quantity - quantity) == (h.current - h.average) * h.quantity
  {
  }

  lemma FreshIffUnmoved(b: Book, f: Fill)
    requires !DividesByZero(b, f) && Fresh(b) && (Adds(b, f) || PartlyCloses(b, f))
    ensures f.symbol in ApplyFill(b, f).holdings
    ensures Fresh(ApplyFill(b, f))
            <==> ApplyFill(b, f).holdings[f.symbol].unrealized == b.holdings[f.symbol].unrealized
  {
    SumByUpdate(b.holdings, f.symbol, ApplyFill(b, f).holdings[f.symbol], UnrealizedOf);
  }

  /** Adds and partial closes do not recalculate the portfolio: its unrealised PnL is right afterwards exactly when
      an add trades at the position's current price, and a partial close at the one price where the rest of the
      position gains as much as all of it did. Every other fill leaves it right. */
  lemma FreshAfterFillIff(b: Book, f: Fill)
    requires WellFormedBook(b) && f.quantity >= 0.0 && !DividesByZero(b, f) && Fresh(b)
    ensures Adds(b, f) ==> (Fresh(ApplyFill(b, f)) <==> f.price == b.holdings[f.symbol].current)
    ensures PartlyCloses(b, f) ==>
      var h := b.holdings[f.symbol];
      (Fresh(ApplyFill(b, f))
       <==> (f.price - h.average) * (h.quantity - f.quantity) == (h.current - h.average) * h.quantity)
    ensures !Adds(b, f) && !PartlyCloses(b, f) ==> Fresh(ApplyFill(b, f))
  {
    if Adds(b, f) || PartlyCloses(b, f) {
      var h := b.holdings[f.symbol];
      FreshIffUnmoved(b, f);
      ApplyFillCases(b, f);
      hide ApplyFill, Enlarged, Marked, SumBy, Agrees;
      if Adds(b, f) {
        AddedUnrealized(h, f.quantity, f.price);
      } else {
        RestUnrealized(h, f.quantity, f.price);
      }
    }
  }

  lemma FirstFill(events: seq<Event>, f: Fill)
    requires |events| == 1 && events[0] == Filled(f) && f.quantity > 0.0 && ParseSide(f.side).Some?
    ensures NonNegative(events)
    ensures BookOf(Run(events), f.user) == Put(NEW_BOOK, f.symbol, Opened(ParseSide(f.side).value, f.quantity, f.price))
    ensures Run(events).seen == {f.executionID}
  {
    assert NonNegative(events) && Front(events) == [];
    hide SumBy;
  }

  lemma PutIsFresh(b: Book, symbol: string, h: Holding)
    ensures Fresh(Put(b, symbol, h)) && symbol in Put(b, symbol, h).holdings && Put(b, symbol, h).holdings[symbol] == h
  {
  }

  lemma AddIsStale(b: Book, f: Fill)
    requires WellFormedBook(b) && Fresh(b) && !Ignored(f) && f.quantity > 0.0
    requires f.symbol in b.holdings && b.holdings[f.symbol].side == ParseSide(f.side).value
    requires f.price != b.holdings[f.symbol].current && !DividesByZero(b, f)
    ensures !Fresh(ApplyFill(b, f))
  {
    hide ApplyFill, Fresh, WellFormedBook;
    FreshAfterFillIff(b, f);
  }

  /** Buying twice at different prices is enough to leave the portfolio's unrealised PnL wrong. */
  lemma SecondBuyLeavesTotalsStale(events: seq<Event>, first: Fill, second: Fill)
    requires |events| == 2 && events[0] == Filled(first) && events[1] == Filled(second)
    requires first.executionID != second.executionID && first.user == second.user && first.symbol == second.symbol
    requires first.side == second.side == "BUY" && first.quantity > 0.0 && second.quantity > 0.0
    requires first.price != second.price
    ensures NonNegative(events) && !Fresh(BookOf(Run(events), first.user))
  {
    var h := Opened(Buy, first.quantity, first.price);
    assert Front(events) == [Filled(first)];
    assert NonNegative(events);
    FirstFill(Front(events), first);
    BookOfIsWellFormed(Run(Front(events)), first.user);
    PutIsFresh(NEW_BOOK, first.symbol, h);
    var b := BookOf(Run(Front(events)), first.user);
    assert h.current == first.price && h.side == Buy;
    hide ApplyFill, Fresh, WellFormedBook, Put, Run, SumBy, BookOf, Opened;
    RunLast(events, first.user);
    AddIsStale(b, second);
  }

  // -------------------------------------------------------------------- current prices

  /** A price update marks exactly the held symbols that it names, leaves every other holding alone, and makes the
      portfolio's unrealised PnL right; it books nothing. */
  lemma RepricedMarks(b: Book, prices: map<string, real>)
    ensures var r := Repriced(b, prices);
      && r.holdings.Keys == b.holdings.Keys && Fresh(r)
      && r.balance == b.balance && r.realized == b.realized && r.trades == b.trades
    ensures forall k :: k in b.holdings ==>
      var h, g := b.holdings[k], Repriced(b, prices).holdings[k];
      && g.side == h.side && g.quantity == h.quantity && g.average == h.average
      && (k in prices ==> g.current == prices[k] && Agrees(g))
      && (k !in prices ==> g == h)
  {
    hide SumBy, ClosedPnL;
    forall k | k in b.holdings && k in prices
      ensures Agrees(Marked(b.holdings[k], prices[k]))
    {
      MarkedAgrees(b.holdings[k], prices[k]);
    }
  }

  /** The price that the last event about this position named: a price update of the user, or the first occurrence of
      a fill of the user that is not ignored. */
  function LastPrice(events: seq<Event>, user: string, symbol: string): Option<real> {
    if events == [] then None
    else
      match Last(events)
      case Filled(f) =>
        if f.user == user && f.symbol == symbol && !Ignored(f) && |Applied(events)| > |Applied(Front(events))|
        then Some(f.price) else LastPrice(Front(events), user, symbol)
      case Priced(u, prices) =>
        if u == user && symbol in prices then Some(prices[symbol]) else LastPrice(Front(events), user, symbol)
  }

  ghost predicate MarkedAt(b: Book, symbol: string, price: Option<real>) {
    symbol in b.holdings ==> price == Some(b.holdings[symbol].current)
  }

  lemma ApplyFillMarks(b: Book, f: Fill, symbol: string, price: Option<real>)
    requires f.quantity >= 0.0 && !DividesByZero(b, f) && MarkedAt(b, symbol, price)
    ensures MarkedAt(ApplyFill(b, f), symbol, if f.symbol == symbol && !Ignored(f) then Some(f.price) else price)
  {
    hide SumBy, ClosedPnL;
  }

  lemma LastPriceLast(events: seq<Event>, user: string, symbol: string)
    requires NonNegative(events) && events != []
    ensures NonNegative(Front(events))
    ensures var e, before := Last(events), LastPrice(Front(events), user, symbol);
      LastPrice(events, user, symbol)
      == if AppliesTo(Run(Front(events)), e, user)
           then (if e.fill.symbol == symbol && !Ignored(e.fill) then Some(e.fill.price) else before)
         else if e.Priced? && e.user == user && symbol in e.prices then Some(e.prices[symbol])
         else before
  {
    hide Run, Ignored;
    FrontNonNegative(events);
    if Last(events).Filled? {
      AppliedLast(events);
    }
  }

  lemma RepricedAt(b: Book, prices: map<string, real>, symbol: string, price: Option<real>)
    requires MarkedAt(b, symbol, price)
    ensures MarkedAt(Repriced(b, prices), symbol, if symbol in prices then Some(prices[symbol]) else price)
  {
    RepricedMarks(b, prices);
    hide Repriced;
  }

  lemma LastAppliedMarks(events: seq<Event>, user: string, symbol: string, price: Option<real>)
    requires NonNegative(events) && events != []
    requires NonNegative(Front(events)) && AppliesTo(Run(Front(events)), Last(events), user)
    requires MarkedAt(BookOf(Run(Front(events)), user), symbol, price)
    ensures var b := BookOf(Run(Front(events)), user); var f := Last(events).fill;
      && !DividesByZero(b, f)
      && MarkedAt(ApplyFill(b, f), symbol, if f.symbol == symbol && !Ignored(f) then Some(f.price) else price)
  {
    hide ApplyFill, MarkedAt, Ignored;
    LastApplied(events, user);
    ApplyFillMarks(BookOf(Run(Front(events)), user), Last(events).fill, symbol, price);
  }

  /** Whatever fills, duplicates and price updates came before: a stored position is marked at the price that its last
      applied fill or price update named, whichever was later. */
  lemma {:induction false} CurrentIsLastPrice(events: seq<Event>, user: string, symbol: string)
    requires NonNegative(events)
    ensures MarkedAt(BookOf(Run(events), user), symbol, LastPrice(events, user, symbol))
    decreases |events|
  {
    if events == [] {
      assert symbol !in BookOf(Run(events), user).holdings;
    } else {
      hide *;
      RunLast(events, user);
      LastPriceLast(events, user, symbol);
      CurrentIsLastPrice(Front(events), user, symbol);
      var b, price := BookOf(Run(Front(events)), user), LastPrice(Front(events), user, symbol);
      if AppliesTo(Run(Front(events)), Last(events), user) {
        LastAppliedMarks(events, user, symbol, price);
      } else if Last(events).Priced? && Last(events).user == user {
        RepricedAt(b, Last(events).prices, symbol, price);
        NoBookNoHolding(Run(Front(events)), user, symbol);
        Unheld(b, symbol, LastPrice(events, user, symbol));
      }
    }
  }

  lemma NoBookNoHolding(s: State, user: string, symbol: string)
    ensures user !in s.books ==> symbol !in BookOf(s, user).holdings
  {
  }

  lemma Unheld(b: Book, symbol: string, price: Option<real>)
    ensures symbol !in b.holdings ==> MarkedAt(b, symbol, price)
  {
  }

  // ------------------------------------------------------------ which fills have effects

  /** A fill that is not negative leaves the book as it was exactly when it has no quantity or is refused. */
  lemma NoEffectIff(b: Book, f: Fill)
    requires f.quantity >= 0.0 && !DividesByZero(b, f)
    ensures ApplyFill(b, f) == b <==> f.quantity == 0.0 || Rejected(b, f)
  {
    hide SumBy;
    if !Ignored(f) {
      var c := ApplyFill(b, f);
      if f.symbol !in b.holdings {
        assert f.symbol in c.holdings;
      } else if Adds(b, f) || PartlyCloses(b, f) {
        assert c.holdings[f.symbol].quantity != b.holdings[f.symbol].quantity;
      } else {
        assert c.trades == b.trades + 1;
      }
    }
  }

  /** The fill closes a position, to zero or beyond. */
  predicate Closes(b: Book, f: Fill) {
    ExactlyCloses(b, f) || Flips(b, f)
  }

  /** How many applied fills of the user closed the position that they met. */
  ghost function CloseCount(events: seq<Event>, user: string): nat
    requires NonNegative(events)
  {
    if events == [] then 0
    else
      FrontNonNegative(events);
      var s := Run(Front(events));
      CloseCount(Front(events), user)
      + (if AppliesTo(s, Last(events), user) && Closes(BookOf(s, user), Last(events).fill) then 1 else 0)
  }

  lemma ApplyFillTrades(b: Book, f: Fill)
    requires !DividesByZero(b, f)
    ensures ApplyFill(b, f).trades == b.trades + (if Closes(b, f) then 1 else 0)
  {
    hide SumBy;
  }

  lemma TradesLast(events: seq<Event>, user: string)
    requires NonNegative(events) && events != []
    ensures NonNegative(Front(events))
    ensures var s := Run(Front(events));
      BookOf(Run(events), user).trades == BookOf(s, user).trades
        + (if AppliesTo(s, Last(events), user) && Closes(BookOf(s, user), Last(events).fill) then 1 else 0)
  {
    hide ApplyFill, Repriced, Closes, WellFormedBook, DividesByZero, Run, BookOf;
    RunLast(events, user);
    var b := BookOf(Run(Front(events)), user);
    if AppliesTo(Run(Front(events)), Last(events), user) {
      LastApplied(events, user);
      ApplyFillTrades(b, Last(events).fill);
    } else if Last(events).Priced? {
      RepricedMarks(b, Last(events).prices);
    }
  }

  /** The number of trades is the number of applied fills that closed a position. */
  lemma {:induction false} TradesAreCloses(events: seq<Event>, user: string)
    requires NonNegative(events)
    ensures BookOf(Run(events), user).trades == CloseCount(events, user)
    decreases |events|
  {
    if events != [] {
      hide ApplyFill, Repriced, Closes, WellFormedBook, DividesByZero, Handle, Reprice, Run, BookOf;
      TradesLast(events, user);
      TradesAreCloses(Front(events), user);
    }
  }
}
