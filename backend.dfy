/**
 * The backend's stored state and its endpoints that touch it: `/api/trade`
 * updates the two collections step by step, `/api/portfolio` builds its
 * list of rows in a loop.
 */
module Backend {
  import opened Wrappers
  import opened Ledger

  /** `info.get('currentPrice', 0)`: the quoted price, 0 when there is none. */
  function CurrentPrice(q: Quote): real {
    if q.Priced? then q.price else 0.0
  }

  /** The row `/api/portfolio` lists for a ticker held in `quantity` shares. */
  function RowFor(ticker: Ticker, quantity: int, quoteOf: Ticker -> Quote): PortfolioRow {
    var price := CurrentPrice(quoteOf(ticker));
    PortfolioRow(ticker, quantity, price, quantity as real * price)
  }

  /**
   * `rows` lists every held ticker exactly once, each with its stored count,
   * its current price and the value of the position.
   */
  ghost predicate IsRowList(rows: seq<PortfolioRow>, holdings: Holdings, quoteOf: Ticker -> Quote) {
    && |rows| == |holdings|
    && (forall i :: 0 <= i < |rows| ==>
          rows[i].ticker in holdings && rows[i] == RowFor(rows[i].ticker, holdings[rows[i].ticker], quoteOf))
    && (forall i, j :: 0 <= i < j < |rows| ==> rows[i].ticker != rows[j].ticker)
    && (forall t :: t in holdings ==> exists i :: 0 <= i < |rows| && rows[i].ticker == t)
  }

  /**
   * The loop of `/api/portfolio`: one row per field of the portfolio
   * document, in no particular order. A price lookup that raises ends the
   * loop with that exception's message.
   */
  method BuildRows(holdings: Holdings, quoteOf: Ticker -> Quote) returns (r: Result<seq<PortfolioRow>, string>)
    ensures r.Success? <==> forall t :: t in holdings ==> !quoteOf(t).Raised?
    ensures r.Success? ==> IsRowList(r.value, holdings, quoteOf)
    ensures r.Failure? ==> exists t :: t in holdings && quoteOf(t) == Raised(r.error)
  {
    var rows: seq<PortfolioRow> := [];
    var remaining := holdings.Keys;
    while remaining != {}
      invariant remaining <= holdings.Keys
      invariant |rows| + |remaining| == |holdings|
      invariant forall t :: t in holdings && t !in remaining ==> !quoteOf(t).Raised?
      invariant forall i :: 0 <= i < |rows| ==>
                  rows[i].ticker in holdings && rows[i].ticker !in remaining
                  && rows[i] == RowFor(rows[i].ticker, holdings[rows[i].ticker], quoteOf)
      invariant forall i, j :: 0 <= i < j < |rows| ==> rows[i].ticker != rows[j].ticker
      invariant forall t :: t in holdings && t !in remaining ==> exists i :: 0 <= i < |rows| && rows[i].ticker == t
      decreases |remaining|
    {
      var ticker :| ticker in remaining;
      var quote := quoteOf(ticker);
      if quote.Raised? {
        return Failure(quote.reason);
      }
      ghost var listed := rows;
      rows := rows + [RowFor(ticker, holdings[ticker], quoteOf)];
      remaining := remaining - {ticker};
      forall t | t in holdings && t !in remaining
        ensures exists i :: 0 <= i < |rows| && rows[i].ticker == t
      {
        if t == ticker {
          assert rows[|rows| - 1].ticker == t;
        } else {
          var i :| 0 <= i < |listed| && listed[i].ticker == t;
          assert rows[i].ticker == t;
        }
      }
    }
    assert holdings.Keys - remaining == holdings.Keys;
    r := Success(rows);
  }

  /** The two collections of the document store, kept by the backend. */
  class Server {
    var portfolios: map<Uid, Holdings>
    var transactions: map<Uid, TransactionsDoc>

    function State(): Db
      reads this
    {
      Db(portfolios, transactions)
    }

    constructor (db: Db)
      ensures State() == db
    {
      portfolios := db.portfolios;
      transactions := db.transactions;
    }

    /**
     * `/api/trade`. The checks run first and return before anything is
     * written; then the portfolio field is incremented, deleted or
     * overwritten, and the record is merged into the history.
     */
    method TradeStock(authorization: Option<string>, body: TradeBody,
                      verify: string -> Option<Uid>, quoteOf: Ticker -> Quote, now: int)
      returns (response: Response)
      modifies this
      ensures Outcome(response, State()) == Trade(old(State()), authorization, body, verify, quoteOf, now)
    {
      var auth := Authenticate(authorization, verify);
      if auth.Failure? {
        return auth.error;
      }
      var uid := auth.value;
      var checked := Validate(body);
      if checked.Failure? {
        return checked.error;
      }
      var order := checked.value;
      var quote := quoteOf(order.ticker);
      if quote.Raised? {
        return Error(500, quote.reason);
      }
      if quote.NoPrice? {
        return Error(404, "No data found for ticker: " + order.ticker);
      }
      var price := quote.price;
      if uid !in portfolios {
        return EmptyList;
      }
      var portfolio := portfolios[uid];
      if order.action == Buy {
        portfolios := portfolios[uid := Bought(portfolio, order.ticker, order.quantity)];
      } else {
        var current := Count(portfolio, order.ticker);
        if current < order.quantity {
          return Error(400, "Insufficient stocks to sell");
        }
        var newQuantity := current - order.quantity;
        if newQuantity == 0 {
          portfolios := portfolios[uid := portfolio - {order.ticker}];
        } else {
          portfolios := portfolios[uid := portfolio[order.ticker := newQuantity]];
        }
      }
      var transaction := Transaction(order.ticker, order.quantity, order.action, price, now);
      transactions := Record(transactions, uid, transaction);
      response := Traded(SuccessMessage(order, price));
    }

    /**
     * `/api/portfolio`: behind the auth gate, `[]` when the user has no
     * portfolio document, otherwise one row per held ticker; a price lookup
     * that raises turns the whole answer into a 500.
     */
    method GetPortfolio(authorization: Option<string>, verify: string -> Option<Uid>, quoteOf: Ticker -> Quote)
      returns (response: Response)
      ensures Authenticate(authorization, verify).Failure? ==>
                response == Authenticate(authorization, verify).error
      ensures Authenticate(authorization, verify).Success? ==>
                var uid := Authenticate(authorization, verify).value;
                && (uid !in portfolios ==> response == Rows([]))
                && (uid in portfolios ==>
                      && (response.Rows? <==> forall t :: t in portfolios[uid] ==> !quoteOf(t).Raised?)
                      && (response.Rows? ==> IsRowList(response.rows, portfolios[uid], quoteOf))
                      && (!response.Rows? ==>
                            response.Error? && response.status == 500
                            && exists t :: t in portfolios[uid] && quoteOf(t) == Raised(response.error)))
    {
      var auth := Authenticate(authorization, verify);
      if auth.Failure? {
        return auth.error;
      }
      var uid := auth.value;
      if uid !in portfolios {
        return Rows([]);
      }
      var built := BuildRows(portfolios[uid], quoteOf);
      match built
      case Success(rows) => response := Rows(rows);
      case Failure(reason) => response := Error(500, reason);
    }
  }
}
