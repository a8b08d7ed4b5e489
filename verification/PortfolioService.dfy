/** The portfolio service on the heap: positions and portfolios are shared, mutable objects.
    Every method is proved against the value functions of PortfolioLedger. */
module PortfolioService {
  import opened Wrappers
  import opened PortfolioLedger

  class Position {
    const symbol: string
    ghost const owner: Portfolio
    var side: Side
    var quantity: real
    var averageEntryPrice: real
    var currentPrice: real
    var unrealizedPnL: real
    var positionValue: real

    function Value(): Holding
      reads this
    {
      Holding(side, quantity, averageEntryPrice, currentPrice, unrealizedPnL, positionValue)
    }

    constructor (ghost owner: Portfolio, symbol: string, side: Side, quantity: real, price: real)
      ensures this.owner == owner && this.symbol == symbol && Value() == Opened(side, quantity, price)
    {
      this.owner := owner;
      this.symbol, this.side, this.quantity := symbol, side, quantity;
      averageEntryPrice, currentPrice := price, price;
      unrealizedPnL, positionValue := 0.0, quantity * price;
    }

    method UpdatePrice(newPrice: real)
      modifies this
      ensures Value() == Marked(old(Value()), newPrice)
    {
      currentPrice := newPrice;
      positionValue := quantity * newPrice;
      match side {
        case Buy => unrealizedPnL := (newPrice - averageEntryPrice) * quantity;
        case Sell => unrealizedPnL := (averageEntryPrice - newPrice) * quantity;
      }
    }
  }

  class Portfolio {
    const userID: string
    var totalBalance: real
    var realizedPnL: real
    var unrealizedPnL: real
    var totalPnL: real
    var totalTrades: nat
    var positions: map<string, Position>

    /** Positions are owned, so no two portfolios and no two symbols share one. */
    ghost predicate Valid()
      reads this
    {
      forall s :: s in positions ==> positions[s].owner == this && positions[s].symbol == s
    }

    ghost function Values(): map<string, Holding>
      reads this, positions.Values
    {
      map s | s in positions :: positions[s].Value()
    }

    ghost function Value(): Book
      reads this, positions.Values
    {
      Book(totalBalance, realizedPnL, unrealizedPnL, totalPnL, totalTrades, Values())
    }

    constructor (userID: string, initialBalance: real)
      ensures Valid() && this.userID == userID
      ensures Value() == NEW_BOOK.(balance := initialBalance) && positions == map[]
    {
      this.userID := userID;
      totalBalance, realizedPnL, unrealizedPnL, totalPnL, totalTrades := initialBalance, 0.0, 0.0, 0.0, 0;
      positions := map[];
    }

    /** The loop visits the positions in any order. */
    method RecalculateTotals()
      modifies this`unrealizedPnL, this`totalPnL
      ensures Value() == Recalculated(old(Value()))
    {
      hide SumBy;
      ghost var all := Values();
      ghost var todo := all;
      var sum := 0.0;
      var rest := positions.Keys;
      while rest != {}
        invariant todo.Keys == rest <= positions.Keys
        invariant forall s :: s in todo ==> todo[s] == positions[s].Value()
        invariant SumBy(all, UnrealizedOf) == sum + SumBy(todo, UnrealizedOf)
        decreases |rest|
      {
        var s :| s in rest;
        SumByRemove(todo, s, UnrealizedOf);
        sum := sum + positions[s].unrealizedPnL;
        rest := rest - {s};
        todo := todo - {s};
      }
      SumByNothing(todo, UnrealizedOf);
      unrealizedPnL := sum;
      totalPnL := realizedPnL + sum;
      assert Values() == all;
    }

    method AddPosition(position: Position) returns (ok: bool)
      requires Valid() && position.owner == this
      modifies this`positions, this`unrealizedPnL, this`totalPnL
      ensures ok <==> position.quantity > 0.0
      ensures Valid() && positions == if ok then old(positions)[position.symbol := position] else old(positions)
      ensures Value() == if ok then Put(old(Value()), position.symbol, position.Value()) else old(Value())
    {
      if position.quantity <= 0.0 { return false; }
      ghost var before := Value();
      positions := positions[position.symbol := position];
      assert Values() == before.holdings[position.symbol := position.Value()];
      RecalculateTotals();
      ok := true;
    }

    method RemovePosition(symbol: string) returns (ok: bool)
      requires Valid()
      modifies this`positions, this`unrealizedPnL, this`totalPnL
      ensures ok <==> symbol in old(positions)
      ensures Valid() && positions == old(positions) - {symbol}
      ensures Value() == if ok then Dropped(old(Value()), symbol) else old(Value())
    {
      if symbol !in positions {
        assert positions == positions - {symbol};
        return false;
      }
      ghost var before := Value();
      positions := positions - {symbol};
      assert Values() == before.holdings - {symbol};
      RecalculateTotals();
      ok := true;
    }

    method MarkPosition(symbol: string, price: real)
      requires Valid()
      modifies positions.Values
      ensures Values() == if symbol in positions then old(Values())[symbol := Marked(old(Values())[symbol], price)]
                          else old(Values())
    {
      hide Marked;
      if symbol in positions {
        positions[symbol].UpdatePrice(price);
      }
    }

    method RealizePnL(pnl: real, fees: real)
      modifies this`realizedPnL, this`totalPnL, this`totalBalance, this`totalTrades
      ensures Value() == Realized(old(Value()), pnl, fees)
    {
      var netPnL := pnl - fees;
      realizedPnL := realizedPnL + netPnL;
      totalPnL := realizedPnL + unrealizedPnL;
      totalBalance := totalBalance + netPnL;
      totalTrades := totalTrades + 1;
    }
  }

  /** The in-memory repository and the service's cache hold pointers to the same portfolios. */
  class Service {
    var processedExecutions: set<string>
    var store: map<string, Portfolio>
    var portfoliosCache: map<string, Portfolio>

    ghost predicate Valid()
      reads this`store, this`portfoliosCache, store.Values
    {
      && (forall u :: u in portfoliosCache ==> u in store && portfoliosCache[u] == store[u])
      && (forall u :: u in store ==> store[u].userID == u && store[u].Valid())
    }

    ghost function Positions(): set<Position>
      reads this`store, store.Values
    {
      set u, s | u in store && s in store[u].positions :: store[u].positions[s]
    }

    ghost function Books(): map<string, Book>
      reads this`store, store.Values, Positions()
    {
      map u | u in store :: store[u].Value()
    }

    ghost function Value(): State
      reads this, store.Values, Positions()
    {
      State(processedExecutions, Books())
    }

    constructor ()
      ensures Valid() && Value() == INITIAL
    {
      processedExecutions, store, portfoliosCache := {}, map[], map[];
    }

    method CreatePortfolio(user: string) returns (portfolio: Portfolio)
      requires Valid() && user !in store
      modifies this`store, this`portfoliosCache
      ensures Valid() && fresh(portfolio) && portfolio.positions == map[] && portfolio.Value() == NEW_BOOK
      ensures store == old(store)[user := portfolio] && user in portfoliosCache && portfoliosCache[user] == portfolio
      ensures Books() == old(Books())[user := NEW_BOOK]
    {
      hide Portfolio.Value, Portfolio.Valid;
      portfolio := new Portfolio(user, INITIAL_BALANCE);
      store := store[user := portfolio];
      portfoliosCache := portfoliosCache[user := portfolio];
      assert Books() == old(Books())[user := NEW_BOOK];
    }

    /** Cache first, then the repository, then a new portfolio with the default balance. */
    method GetOrCreatePortfolio(user: string) returns (portfolio: Portfolio)
      requires Valid()
      modifies this`store, this`portfoliosCache
      ensures Valid() && user in portfoliosCache && portfolio == portfoliosCache[user]
      ensures portfolio.Value() == BookOf(old(Value()), user)
      ensures Books() == old(Books())[user := BookOf(old(Value()), user)]
      ensures user in old(store) ==> store == old(store)
      ensures user !in old(store) ==>
        store == old(store)[user := portfolio] && portfolio.positions == map[] && fresh(portfolio)
    {
      hide Portfolio.Value;
      if user in portfoliosCache {
        portfolio := portfoliosCache[user];
      } else if user in store {
        portfolio := store[user];
        portfoliosCache := portfoliosCache[user := portfolio];
      } else {
        portfolio := CreatePortfolio(user);
        return;
      }
      assert Books() == old(Books()) == old(Books())[user := portfolio.Value()];
    }

    method UpdatePortfolioWithExecution(portfolio: Portfolio, f: Fill) returns (ok: bool)
      requires portfolio.Valid() && !DividesByZero(portfolio.Value(), f)
      modifies portfolio, portfolio.positions.Values
      ensures portfolio.Valid()
      ensures portfolio.Value() == ApplyFill(old(portfolio.Value()), f)
      ensures ok <==> !Rejected(old(portfolio.Value()), f)
    {
      ghost var before := portfolio.Value();
      ApplyFillCases(before, f);
      hide ApplyFill, SumBy, Put, Dropped, Realized, Recalculated, ClosedPnL;
      if f.quantity == 0.0 { return true; }
      var side;
      match f.side {
        case "BUY" => side := Buy;
        case "SELL" => side := Sell;
        case _ => return false;
      }
      if f.symbol !in portfolio.positions {
        ok := OpenPosition(portfolio, f.symbol, side, f.quantity, f.price);
        return;
      }
      var existing := portfolio.positions[f.symbol];
      if existing.side == side {
        var totalQty := existing.quantity + f.quantity;
        var totalCost := existing.averageEntryPrice * existing.quantity + f.price * f.quantity;
        existing.averageEntryPrice := totalCost / totalQty;
        existing.quantity := totalQty;
        existing.UpdatePrice(f.price);
        assert existing.Value() == Enlarged(before.holdings[f.symbol], f.quantity, f.price);
        assert portfolio.Values()
            == before.holdings[f.symbol := Enlarged(before.holdings[f.symbol], f.quantity, f.price)];
        ok := true;
      } else {
        ok := ReducePosition(portfolio, existing, side, f);
      }
    }

    /** The opposite-side branch of updatePortfolioWithExecution. */
    method ReducePosition(portfolio: Portfolio, existing: Position, side: Side, f: Fill) returns (ok: bool)
      requires portfolio.Valid() && Opposes(portfolio.Value(), f) && ParseSide(f.side) == Some(side)
      requires f.symbol in portfolio.positions && existing == portfolio.positions[f.symbol]
      modifies portfolio, existing
      ensures portfolio.Valid() && ok
      ensures portfolio.Value() == ApplyFill(old(portfolio.Value()), f)
    {
      ghost var before := portfolio.Value();
      ApplyFillCases(before, f);
      hide ApplyFill, SumBy, Put, Dropped, Realized, Recalculated, ClosedPnL, Marked, Opened;
      var newQty := existing.quantity - f.quantity;
      if newQty > 0.0 {
        existing.quantity := newQty;
        existing.UpdatePrice(f.price);
        assert portfolio.Values()
          == before.holdings[f.symbol := Marked(before.holdings[f.symbol].(quantity := newQty), f.price)];
        ok := true;
      } else if newQty == 0.0 {
        ok := ClosePosition(portfolio, existing, f.price, f.fees);
      } else {
        ok := ClosePosition(portfolio, existing, f.price, 0.0);
        ok := OpenPosition(portfolio, f.symbol, side, -newQty, f.price);
      }
    }

    method ClosePosition(portfolio: Portfolio, existing: Position, price: real, fees: real) returns (ok: bool)
      requires portfolio.Valid() && existing.symbol in portfolio.positions
      requires existing == portfolio.positions[existing.symbol]
      modifies portfolio
      ensures portfolio.Valid() && ok
      ensures portfolio.Value()
              == Dropped(Realized(old(portfolio.Value()), ClosedPnL(existing.Value(), price), fees), existing.symbol)
    {
      hide SumBy, Dropped, Realized, Recalculated, ClosedPnL;
      var pnl := ClosedPnL(existing.Value(), price);
      portfolio.RealizePnL(pnl, fees);
      ok := portfolio.RemovePosition(existing.symbol);
    }

    method OpenPosition(portfolio: Portfolio, symbol: string, side: Side, quantity: real, price: real)
      returns (ok: bool)
      requires portfolio.Valid()
      modifies portfolio
      ensures portfolio.Valid() && (ok <==> quantity > 0.0)
      ensures portfolio.Value() == if ok then Put(old(portfolio.Value()), symbol, Opened(side, quantity, price))
                                   else old(portfolio.Value())
    {
      hide SumBy, Put, Recalculated;
      var position := new Position(portfolio, symbol, side, quantity, price);
      ok := portfolio.AddPosition(position);
    }

    /** Working on one user's portfolio leaves the books of all other users alone. */
    twostate lemma OthersKeepTheirBooks(user: string)
      requires old(Valid()) && user in store && store == old(store)
      requires forall u :: u in store && u != user ==>
        unchanged(store[u]) && forall s :: s in store[u].positions ==> unchanged(store[u].positions[s])
      ensures Books() == old(Books())[user := store[user].Value()]
    {
      forall u | u in store && u != user
        ensures store[u].Value() == old(store[u].Value())
      {
        assert store[u].Values() == old(store[u].Values());
      }
    }

    method Apply(portfolio: Portfolio, f: Fill) returns (ok: bool)
      requires Valid() && f.user in store && portfolio == store[f.user]
      requires !DividesByZero(portfolio.Value(), f)
      modifies portfolio, portfolio.positions.Values
      ensures Valid()
      ensures Books() == old(Books())[f.user := ApplyFill(old(portfolio.Value()), f)]
      ensures ok <==> !Rejected(old(portfolio.Value()), f)
    {
      hide ApplyFill, DividesByZero, Rejected;
      ok := UpdatePortfolioWithExecution(portfolio, f);
      OthersKeepTheirBooks(f.user);
    }

    method Persist(portfolio: Portfolio)
      requires Valid() && portfolio.userID in store && portfolio == store[portfolio.userID]
      modifies this`store, this`portfoliosCache
      ensures Valid() && store == old(store) && Value() == old(Value())
    {
      assert store[portfolio.userID := portfolio] == store;
      store := store[portfolio.userID := portfolio];
      portfoliosCache := portfoliosCache[portfolio.userID := portfolio];
    }

    method Settle(f: Fill) returns (ok: bool)
      requires Valid() && !DividesByZero(BookOf(Value(), f.user), f)
      modifies this`store, this`portfoliosCache, store.Values, Positions()
      ensures Valid()
      ensures Books() == old(Books())[f.user := ApplyFill(BookOf(old(Value()), f.user), f)]
      ensures ok <==> !Rejected(BookOf(old(Value()), f.user), f)
    {
      hide ApplyFill, DividesByZero, Rejected, Portfolio.Value;
      var portfolio := GetOrCreatePortfolio(f.user);
      ok := Apply(portfolio, f);
      if ok { Persist(portfolio); }
    }

    /** The execution ID is recorded before the portfolio is touched; a rejected fill changes no book. */
    method HandleExecutionFilled(f: Fill) returns (ok: bool)
      requires Valid() && !DividesByZero(BookOf(Value(), f.user), f)
      modifies this, store.Values, Positions()
      ensures Valid() && Value() == Handle(old(Value()), f)
      ensures ok <==> f.executionID in old(processedExecutions) || !Rejected(BookOf(old(Value()), f.user), f)
    {
      hide ApplyFill, DividesByZero, Rejected, Portfolio.Value;
      if f.executionID in processedExecutions { return true; }
      processedExecutions := processedExecutions + {f.executionID};
      ok := Settle(f);
    }

    /** Mark-to-market: the prices are visited in any order. */
    method UpdatePortfolioPrices(user: string, prices: map<string, real>) returns (ok: bool)
      requires Valid()
      modifies store.Values, Positions()
      ensures Valid() && Value() == Reprice(old(Value()), user, prices)
      ensures ok <==> user in old(store)
    {
      hide SumBy, Marked;
      if user !in store { return false; }
      var portfolio := store[user];
      UpdatePositionPrices(portfolio, prices);
      portfolio.RecalculateTotals();
      OthersKeepTheirBooks(user);
      ok := true;
    }

    method UpdatePositionPrices(portfolio: Portfolio, prices: map<string, real>)
      requires portfolio.Valid()
      modifies portfolio.positions.Values
      ensures portfolio.Values() == MarkedAll(old(portfolio.Values()), prices)
    {
      ghost var before := portfolio.Values();
      assert before.Keys == portfolio.positions.Keys;
      hide MarkedAll, Marked, Portfolio.Values;
      ghost var done: map<string, real> := map[];
      MarkedAllNothing(before);
      var rest := prices.Keys;
      while rest != {}
        invariant rest <= prices.Keys && done == prices - rest
        invariant portfolio.Values() == MarkedAll(before, done)
        decreases |rest|
      {
        var symbol :| symbol in rest;
        portfolio.MarkPosition(symbol, prices[symbol]);
        MarkedAllOneMore(before, done, symbol, prices[symbol]);
        rest := rest - {symbol};
        done := done[symbol := prices[symbol]];
      }
      assert done == prices;
    }
  }
}
