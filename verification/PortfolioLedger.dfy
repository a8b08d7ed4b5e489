/** Portfolio accounting on values: what a fill and a price update do to a user's book,
    and what whole runs of the portfolio service add up to.
    Source: internal/application/portfolio/service.go, internal/domain/portfolio.go,
    internal/application/portfolio/calculator.go. */
module PortfolioLedger {
  import opened Wrappers
  import opened Sequences

  const INITIAL_BALANCE: real := 10000.0

  datatype Side = Buy | Sell

  datatype Holding = Holding(
    side: Side,
    quantity: real,
    average: real,
    current: real,
    unrealized: real,
    value: real)

  datatype Book = Book(
    balance: real,
    realized: real,
    unrealized: real,
    totalPnL: real,
    trades: nat,
    holdings: map<string, Holding>)

  datatype Fill = Fill(
    executionID: string,
    user: string,
    symbol: string,
    side: string,
    quantity: real,
    price: real,
    fees: real)

  function ParseSide(s: string): Option<Side> {
    if s == "BUY" then Some(Buy) else if s == "SELL" then Some(Sell) else None
  }

  /** A quantity bought counts positive, a quantity sold negative. */
  function Signed(side: Side, quantity: real): real {
    if side.Buy? then quantity else -quantity
  }

  // ---------------------------------------------------------------- holdings

  /** NewPosition: the unrealised PnL of a new position is left at zero. */
  function Opened(side: Side, quantity: real, price: real): Holding {
    Holding(side, quantity, price, price, 0.0, quantity * price)
  }

  /** CalculateClosedPnL: what closing the whole holding at `exit` gains. */
  function ClosedPnL(h: Holding, exit: real): real {
    if h.side.Buy? then (exit - h.average) * h.quantity else (h.average - exit) * h.quantity
  }

  /** Position.UpdatePrice. */
  function Marked(h: Holding, price: real): Holding {
    h.(current := price,
       value := h.quantity * price,
       unrealized := if h.side.Buy? then (price - h.average) * h.quantity
                     else (h.average - price) * h.quantity)
  }

  function SignedQuantity(h: Holding): real { Signed(h.side, h.quantity) }
  function SignedCost(h: Holding): real { Signed(h.side, h.quantity) * h.average }
  function SignedValue(h: Holding): real { Signed(h.side, h.quantity) * h.current }
  function UnrealizedOf(h: Holding): real { h.unrealized }

  // ------------------------------------------------- sums over a holdings map

  ghost function Pick(hs: map<string, Holding>): (k: string)
    requires hs != map[]
    ensures k in hs
  {
    var k :| k in hs; k
  }

  /** Sum of `f` over all holdings; SumByRemove shows that the order does not matter. */
  ghost function SumBy(hs: map<string, Holding>, f: Holding -> real): real
    decreases |hs|
  {
    if hs == map[] then 0.0
    else
      var k := Pick(hs);
      f(hs[k]) + SumBy(hs - {k}, f)
  }

  lemma SumByNothing(hs: map<string, Holding>, f: Holding -> real)
    requires hs.Keys == {}
    ensures SumBy(hs, f) == 0.0
  {
    assert hs == map[];
  }

  lemma {:induction false} SumByRemove(hs: map<string, Holding>, k: string, f: Holding -> real)
    requires k in hs
    ensures SumBy(hs, f) == f(hs[k]) + SumBy(hs - {k}, f)
    decreases |hs|
  {
    var j := Pick(hs);
    if j != k {
      SumByRemove(hs - {j}, k, f);
      SumByRemove(hs - {k}, j, f);
      assert hs - {j} - {k} == hs - {k} - {j};
    }
  }

  lemma SumByUpdate(hs: map<string, Holding>, k: string, h: Holding, f: Holding -> real)
    ensures SumBy(hs[k := h], f) == SumBy(hs, f) - (if k in hs then f(hs[k]) else 0.0) + f(h)
  {
    SumByRemove(hs[k := h], k, f);
    assert hs[k := h] - {k} == hs - {k};
    if k in hs {
      SumByRemove(hs, k, f);
    } else {
      assert hs - {k} == hs;
    }
  }

  lemma {:induction false} SumBySame(hs: map<string, Holding>, gs: map<string, Holding>, f: Holding -> real)
    requires hs.Keys == gs.Keys
    requires forall k :: k in hs ==> f(hs[k]) == f(gs[k])
    ensures SumBy(hs, f) == SumBy(gs, f)
    decreases |hs|
  {
    if hs != map[] {
      var k := Pick(hs);
      SumBySame(hs - {k}, gs - {k}, f);
      SumByRemove(gs, k, f);
    } else {
      assert gs == map[];
    }
  }

  lemma {:induction false} SumByDifference(hs: map<string, Holding>,
                                           f: Holding -> real, g: Holding -> real, d: Holding -> real)
    requires forall k :: k in hs ==> d(hs[k]) == f(hs[k]) - g(hs[k])
    ensures SumBy(hs, d) == SumBy(hs, f) - SumBy(hs, g)
    decreases |hs|
  {
    if hs != map[] {
      var k := Pick(hs);
      SumByDifference(hs - {k}, f, g, d);
    }
  }

  // ------------------------------------------------------------------- books

  const NEW_BOOK := Book(INITIAL_BALANCE, 0.0, 0.0, 0.0, 0, map[])

  /** RecalculateTotals. */
  ghost function Recalculated(b: Book): Book {
    var u := SumBy(b.holdings, UnrealizedOf);
    b.(unrealized := u, totalPnL := b.realized + u)
  }

  /** RealizePnL. */
  function Realized(b: Book, pnl: real, fees: real): Book {
    b.(realized := b.realized + (pnl - fees),
       totalPnL := b.realized + (pnl - fees) + b.unrealized,
       balance := b.balance + (pnl - fees),
       trades := b.trades + 1)
  }

  /** AddPosition on a position of positive quantity. */
  ghost function Put(b: Book, symbol: string, h: Holding): Book {
    Recalculated(b.(holdings := b.holdings[symbol := h]))
  }

  /** RemovePosition of a position that exists. */
  ghost function Dropped(b: Book, symbol: string): Book {
    Recalculated(b.(holdings := b.holdings - {symbol}))
  }

  predicate Ignored(f: Fill) {
    f.quantity == 0.0 || ParseSide(f.side).None?
  }

  predicate Adds(b: Book, f: Fill) {
    !Ignored(f) && f.symbol in b.holdings && b.holdings[f.symbol].side == ParseSide(f.side).value
  }

  predicate Opposes(b: Book, f: Fill) {
    !Ignored(f) && f.symbol in b.holdings && b.holdings[f.symbol].side != ParseSide(f.side).value
  }

  predicate PartlyCloses(b: Book, f: Fill) {
    Opposes(b, f) && f.quantity < b.holdings[f.symbol].quantity
  }

  predicate ExactlyCloses(b: Book, f: Fill) {
    Opposes(b, f) && f.quantity == b.holdings[f.symbol].quantity
  }

  /** The one place where the source divides: adding to a position. */
  predicate DividesByZero(b: Book, f: Fill) {
    Adds(b, f) && b.holdings[f.symbol].quantity + f.quantity == 0.0
  }

  /** An error return: an unknown side, or a first fill whose quantity is negative. */
  predicate Rejected(b: Book, f: Fill) {
    f.quantity != 0.0
    && (ParseSide(f.side).None? || (f.symbol !in b.holdings && f.quantity < 0.0))
  }

  function Enlarged(h: Holding, quantity: real, price: real): Holding
    requires h.quantity + quantity != 0.0
  {
    var total := h.quantity + quantity;
    Marked(h.(average := (h.average * h.quantity + price * quantity) / total, quantity := total), price)
  }

  /** updatePortfolioWithExecution. */
  ghost function ApplyFill(b: Book, f: Fill): Book
    requires !DividesByZero(b, f)
  {
    if Ignored(f) then b
    else
      var side := ParseSide(f.side).value;
      if f.symbol !in b.holdings then
        if f.quantity <= 0.0 then b else Put(b, f.symbol, Opened(side, f.quantity, f.price))
      else
        var h := b.holdings[f.symbol];
        if h.side == side then
          b.(holdings := b.holdings[f.symbol := Enlarged(h, f.quantity, f.price)])
        else
          var left := h.quantity - f.quantity;
          if left > 0.0 then
            b.(holdings := b.holdings[f.symbol := Marked(h.(quantity := left), f.price)])
          else if left == 0.0 then
            Dropped(Realized(b, ClosedPnL(h, f.price), f.fees), f.symbol)
          else
            Put(Dropped(Realized(b, ClosedPnL(h, f.price), 0.0), f.symbol),
                f.symbol, Opened(side, -left, f.price))
  }

  predicate Flips(b: Book, f: Fill) {
    Opposes(b, f) && f.quantity > b.holdings[f.symbol].quantity
  }

  /** The five cases of a fill, one equation each. */
  lemma ApplyFillCases(b: Book, f: Fill)
    requires !DividesByZero(b, f)
    ensures Ignored(f) || (f.symbol !in b.holdings && f.quantity <= 0.0) ==> ApplyFill(b, f) == b
    ensures !Ignored(f) && f.symbol !in b.holdings && f.quantity > 0.0 ==>
              ApplyFill(b, f) == Put(b, f.symbol, Opened(ParseSide(f.side).value, f.quantity, f.price))
    ensures Adds(b, f) ==> var h := b.holdings[f.symbol];
              ApplyFill(b, f) == b.(holdings := b.holdings[f.symbol := Enlarged(h, f.quantity, f.price)])
    ensures PartlyCloses(b, f) ==> var h := b.holdings[f.symbol];
              var rest := h.(quantity := h.quantity - f.quantity);
              ApplyFill(b, f) == b.(holdings := b.holdings[f.symbol := Marked(rest, f.price)])
    ensures ExactlyCloses(b, f) ==>
              ApplyFill(b, f) == Dropped(Realized(b, ClosedPnL(b.holdings[f.symbol], f.price), f.fees), f.symbol)
    ensures Flips(b, f) ==> var h := b.holdings[f.symbol];
              ApplyFill(b, f) == Put(Dropped(Realized(b, ClosedPnL(h, f.price), 0.0), f.symbol), f.symbol,
                                     Opened(ParseSide(f.side).value, -(h.quantity - f.quantity), f.price))
  {
  }

  function MarkedAll(hs: map<string, Holding>, prices: map<string, real>): map<string, Holding> {
    map s | s in hs :: if s in prices then Marked(hs[s], prices[s]) else hs[s]
  }

  lemma MarkedAllNothing(hs: map<string, Holding>)
    ensures MarkedAll(hs, map[]) == hs
  {
  }

  lemma MarkedAllOneMore(hs: map<string, Holding>, done: map<string, real>, symbol: string, price: real)
    requires symbol !in done
    ensures symbol in hs ==>
      MarkedAll(hs, done[symbol := price]) == MarkedAll(hs, done)[symbol := Marked(MarkedAll(hs, done)[symbol], price)]
    ensures symbol !in hs ==> MarkedAll(hs, done[symbol := price]) == MarkedAll(hs, done)
  {
  }

  /** UpdatePortfolioPrices. */
  ghost function Repriced(b: Book, prices: map<string, real>): Book {
    Recalculated(b.(holdings := MarkedAll(b.holdings, prices)))
  }

  // ---------------------------------------------------------- the whole service

  datatype State = State(seen: set<string>, books: map<string, Book>)

  datatype Event =
    | Filled(fill: Fill)
    | Priced(user: string, prices: map<string, real>)

  const INITIAL := State({}, map[])

  /** getOrCreatePortfolio. */
  function BookOf(s: State, user: string): Book {
    if user in s.books then s.books[user] else NEW_BOOK
  }

  /** handleExecutionFilled: the ID is recorded before anything else happens. */
  ghost function Handle(s: State, f: Fill): State
    requires !DividesByZero(BookOf(s, f.user), f)
  {
    if f.executionID in s.seen then s
    else State(s.seen + {f.executionID}, s.books[f.user := ApplyFill(BookOf(s, f.user), f)])
  }

  /** A price update for a user without a portfolio returns an error and changes nothing. */
  ghost function Reprice(s: State, user: string, prices: map<string, real>): State {
    if user in s.books then s.(books := s.books[user := Repriced(s.books[user], prices)]) else s
  }

  ghost predicate WellFormedBook(b: Book) {
    && (forall k :: k in b.holdings ==> b.holdings[k].quantity > 0.0 && Agrees(b.holdings[k]))
    && b.totalPnL == b.realized + b.unrealized
    && b.balance == INITIAL_BALANCE + b.realized
  }

  /** Mark-to-market agreement of one position. */
  predicate Agrees(h: Holding) {
    && h.value == h.quantity * h.current
    && h.unrealized == ClosedPnL(h, h.current)
  }

  ghost predicate WellFormed(s: State) {
    forall u :: u in s.books ==> WellFormedBook(s.books[u])
  }

  /** Executed quantities are never negative; prices, fees, sides and IDs are arbitrary. */
  predicate NonNegative(events: seq<Event>) {
    forall e :: e in events && e.Filled? ==> e.fill.quantity >= 0.0
  }

  lemma MarkedAgrees(h: Holding, price: real)
    ensures Agrees(Marked(h, price))
  {
  }

  lemma OpenedAgrees(side: Side, quantity: real, price: real)
    ensures Agrees(Opened(side, quantity, price))
  {
  }

  lemma PutKeepsWellFormed(b: Book, symbol: string, h: Holding)
    requires WellFormedBook(b) && h.quantity > 0.0 && Agrees(h)
    ensures WellFormedBook(Put(b, symbol, h))
    ensures WellFormedBook(b.(holdings := b.holdings[symbol := h]))
  {
  }

  lemma DroppedKeepsWellFormed(b: Book, symbol: string, pnl: real, fees: real)
    requires WellFormedBook(b)
    ensures WellFormedBook(Dropped(Realized(b, pnl, fees), symbol))
  {
  }

  lemma ApplyFillKeepsWellFormed(b: Book, f: Fill)
    requires WellFormedBook(b) && f.quantity >= 0.0
    ensures !DividesByZero(b, f) && WellFormedBook(ApplyFill(b, f))
  {
    if !Ignored(f) {
      var side := ParseSide(f.side).value;
      if f.symbol !in b.holdings {
        OpenedAgrees(side, f.quantity, f.price);
        PutKeepsWellFormed(b, f.symbol, Opened(side, f.quantity, f.price));
      } else {
        var h := b.holdings[f.symbol];
        var left := h.quantity - f.quantity;
        if h.side == side {
          var g := Enlarged(h, f.quantity, f.price);
          assert Agrees(g);
          PutKeepsWellFormed(b, f.symbol, g);
        } else if left > 0.0 {
          MarkedAgrees(h.(quantity := left), f.price);
          PutKeepsWellFormed(b, f.symbol, Marked(h.(quantity := left), f.price));
        } else if left == 0.0 {
          DroppedKeepsWellFormed(b, f.symbol, ClosedPnL(h, f.price), f.fees);
        } else {
          DroppedKeepsWellFormed(b, f.symbol, ClosedPnL(h, f.price), 0.0);
          OpenedAgrees(side, -left, f.price);
          PutKeepsWellFormed(Dropped(Realized(b, ClosedPnL(h, f.price), 0.0), f.symbol),
                             f.symbol, Opened(side, -left, f.price));
        }
      }
    }
  }

  lemma RepricedKeepsWellFormed(b: Book, prices: map<string, real>)
    requires WellFormedBook(b)
    ensures WellFormedBook(Repriced(b, prices))
  {
    forall k | k in b.holdings && k in prices
      ensures Agrees(Marked(b.holdings[k], prices[k]))
    {
      MarkedAgrees(b.holdings[k], prices[k]);
    }
  }

  lemma StoreKeepsWellFormed(s: State, seen: set<string>, user: string, b: Book)
    requires WellFormed(s) && WellFormedBook(b)
    ensures WellFormed(State(seen, s.books[user := b]))
  {
  }

  lemma BookOfIsWellFormed(s: State, user: string)
    requires WellFormed(s)
    ensures WellFormedBook(BookOf(s, user))
  {
  }

  lemma HandleIsDefined(s: State, f: Fill)
    requires WellFormed(s) && f.quantity >= 0.0
    ensures !DividesByZero(BookOf(s, f.user), f)
  {
    BookOfIsWellFormed(s, f.user);
  }

  lemma HandleKeepsWellFormed(s: State, f: Fill)
    requires WellFormed(s) && f.quantity >= 0.0 && !DividesByZero(BookOf(s, f.user), f)
    ensures WellFormed(Handle(s, f))
  {
    if f.executionID !in s.seen {
      assert WellFormedBook(ApplyFill(BookOf(s, f.user), f)) by {
        BookOfIsWellFormed(s, f.user);
        ApplyFillKeepsWellFormed(BookOf(s, f.user), f);
      }
      StoreKeepsWellFormed(s, s.seen + {f.executionID}, f.user, ApplyFill(BookOf(s, f.user), f));
    }
  }

  lemma RepriceKeepsWellFormed(s: State, user: string, prices: map<string, real>)
    requires WellFormed(s)
    ensures WellFormed(Reprice(s, user, prices))
  {
    if user in s.books {
      RepricedKeepsWellFormed(s.books[user], prices);
    }
  }

  lemma FrontNonNegative(events: seq<Event>)
    requires NonNegative(events) && events != []
    ensures NonNegative(Front(events))
    ensures Last(events).Filled? ==> Last(events).fill.quantity >= 0.0
  {
    assert Last(events) in events;
  }

  /** The state after a run. Its postcondition is the mark-to-market agreement in every reachable state. */
  ghost function Run(events: seq<Event>): (s: State)
    requires NonNegative(events)
    ensures WellFormed(s)
  {
    if events == [] then INITIAL
    else
      FrontNonNegative(events);
      var s := Run(Front(events));
      match Last(events)
      case Filled(f) =>
        HandleIsDefined(s, f);
        HandleKeepsWellFormed(s, f);
        Handle(s, f)
      case Priced(user, prices) =>
        RepriceKeepsWellFormed(s, user, prices);
        Reprice(s, user, prices)
  }
}
