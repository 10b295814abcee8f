/**
 * What a trade request does to the store, outcome by outcome, and how the
 * holdings rules compose.
 */
module LedgerProperties {
  import opened Wrappers
  import opened Ledger

  /**
   * A request without a usable `Authorization` header is refused with 401
   * before the body is looked at (even a body that would crash), and the
   * store is unchanged.
   */
  lemma MissingTokenIsRefused(db: Db, authorization: Option<string>, body: TradeBody,
                              verify: string -> Option<Uid>, quoteOf: Ticker -> Quote, now: int)
    requires authorization.None? || authorization.value == ""
    ensures Trade(db, authorization, body, verify, quoteOf, now) == Outcome(Error(401, "No token provided"), db)
  {
  }

  /** A token that does not verify to a user id is refused with 401; the store is unchanged. */
  lemma InvalidTokenIsRefused(db: Db, authorization: Option<string>, body: TradeBody,
                              verify: string -> Option<Uid>, quoteOf: Ticker -> Quote, now: int)
    requires authorization.Some? && authorization.value != ""
    requires verify(authorization.value).None? || verify(authorization.value) == Some("")
    ensures Trade(db, authorization, body, verify, quoteOf, now) == Outcome(Error(401, "Invalid token"), db)
  {
  }

  /** An authenticated request with no ticker fails with an unhandled exception; nothing is written. */
  lemma MissingTickerIsUnhandled(db: Db, authorization: Option<string>, body: TradeBody,
                                 verify: string -> Option<Uid>, quoteOf: Ticker -> Quote, now: int)
    requires Authenticate(authorization, verify).Success?
    requires body.ticker.None?
    ensures Trade(db, authorization, body, verify, quoteOf, now) == Outcome(Unhandled, db)
  {
  }

  /**
   * An authenticated request with an empty ticker, a missing or zero
   * quantity, or an action other than "buy"/"sell" is refused with 400 and
   * the store is unchanged; the price service is not consulted.
   */
  lemma InvalidRequestIsRefused(db: Db, authorization: Option<string>, body: TradeBody,
                                verify: string -> Option<Uid>, quoteOf: Ticker -> Quote, now: int)
    requires Authenticate(authorization, verify).Success?
    requires body.ticker.Some?
    requires || body.ticker.value == ""
             || body.quantity.None? || body.quantity == Some(0)
             || (body.action != Some("buy") && body.action != Some("sell"))
    ensures Trade(db, authorization, body, verify, quoteOf, now) == Outcome(Error(400, "Invalid request data"), db)
  {
  }

  /** There is no positivity check: a negative quantity passes validation. */
  lemma NegativeQuantityIsValid(ticker: string, quantity: int, action: Action)
    requires ticker != "" && quantity < 0
    ensures Validate(TradeBody(Some(ticker), Some(quantity), Some(ActionName(action))))
            == Success(Order(Upper(ticker), quantity, action))
  {
  }

  /** A ticker the price service has no `currentPrice` for is refused with 404; nothing is written. */
  lemma UnpricedTickerIsNotFound(db: Db, authorization: Option<string>, body: TradeBody,
                                 verify: string -> Option<Uid>, quoteOf: Ticker -> Quote, now: int,
                                 order: Order)
    requires Authenticate(authorization, verify).Success?
    requires Validate(body) == Success(order)
    requires quoteOf(order.ticker) == NoPrice
    ensures Trade(db, authorization, body, verify, quoteOf, now)
            == Outcome(Error(404, "No data found for ticker: " + order.ticker), db)
  {
  }

  /**
   * When the user has no portfolio document, a valid priced trade, buy or
   * sell, answers an empty list and writes neither the portfolio nor the
   * history.
   */
  lemma MissingPortfolioReturnsEmptyList(db: Db, authorization: Option<string>, body: TradeBody,
                                         verify: string -> Option<Uid>, quoteOf: Ticker -> Quote, now: int,
                                         uid: Uid, order: Order)
    requires Authenticate(authorization, verify) == Success(uid)
    requires Validate(body) == Success(order)
    requires quoteOf(order.ticker).Priced?
    requires uid !in db.portfolios
    ensures Trade(db, authorization, body, verify, quoteOf, now) == Outcome(EmptyList, db)
  {
  }

  /** Every response other than a success message leaves both collections as they were. */
  lemma FailedTradeChangesNothing(db: Db, authorization: Option<string>, body: TradeBody,
                                  verify: string -> Option<Uid>, quoteOf: Ticker -> Quote, now: int)
    requires !Trade(db, authorization, body, verify, quoteOf, now).response.Traded?
    ensures Trade(db, authorization, body, verify, quoteOf, now).db == db
  {
  }

  /**
   * A successful buy adds the quantity to that ticker's count (a missing
   * ticker starting from 0) and changes no other ticker and no other user's
   * portfolio.
   */
  lemma BuyAddsQuantity(db: Db, authorization: Option<string>, body: TradeBody,
                        verify: string -> Option<Uid>, quoteOf: Ticker -> Quote, now: int,
                        uid: Uid, order: Order)
    requires Authenticate(authorization, verify) == Success(uid)
    requires Validate(body) == Success(order) && order.action == Buy
    requires quoteOf(order.ticker).Priced?
    requires uid in db.portfolios
    ensures var out := Trade(db, authorization, body, verify, quoteOf, now);
            && out.response == Traded(SuccessMessage(order, quoteOf(order.ticker).price))
            && out.db.portfolios.Keys == db.portfolios.Keys
            && Count(out.db.portfolios[uid], order.ticker) == Count(db.portfolios[uid], order.ticker) + order.quantity
            && out.db.portfolios[uid].Keys == db.portfolios[uid].Keys + {order.ticker}
            && (forall t :: t in db.portfolios[uid] && t != order.ticker ==>
                  out.db.portfolios[uid][t] == db.portfolios[uid][t])
            && (forall u :: u in db.portfolios && u != uid ==> out.db.portfolios[u] == db.portfolios[u])
  {
  }

  /**
   * A sell of more shares than are held (a missing ticker holding 0) is
   * refused with 400 and the store is unchanged.
   */
  lemma InsufficientSellIsRefused(db: Db, authorization: Option<string>, body: TradeBody,
                                  verify: string -> Option<Uid>, quoteOf: Ticker -> Quote, now: int,
                                  uid: Uid, order: Order)
    requires Authenticate(authorization, verify) == Success(uid)
    requires Validate(body) == Success(order) && order.action == Sell
    requires quoteOf(order.ticker).Priced?
    requires uid in db.portfolios && Count(db.portfolios[uid], order.ticker) < order.quantity
    ensures Trade(db, authorization, body, verify, quoteOf, now)
            == Outcome(Error(400, "Insufficient stocks to sell"), db)
  {
  }

  /**
   * A successful sell lowers the ticker's count by the quantity and removes
   * the ticker when the count reaches exactly 0, so it never stores a zero;
   * no other ticker and no other user's portfolio changes.
   */
  lemma SellSubtractsQuantity(db: Db, authorization: Option<string>, body: TradeBody,
                              verify: string -> Option<Uid>, quoteOf: Ticker -> Quote, now: int,
                              uid: Uid, order: Order)
    requires Authenticate(authorization, verify) == Success(uid)
    requires Validate(body) == Success(order) && order.action == Sell
    requires quoteOf(order.ticker).Priced?
    requires uid in db.portfolios && order.quantity <= Count(db.portfolios[uid], order.ticker)
    ensures var out := Trade(db, authorization, body, verify, quoteOf, now);
            var before := db.portfolios[uid];
            && out.response == Traded(SuccessMessage(order, quoteOf(order.ticker).price))
            && out.db.portfolios.Keys == db.portfolios.Keys
            && Count(out.db.portfolios[uid], order.ticker) == Count(before, order.ticker) - order.quantity
            && (order.ticker in out.db.portfolios[uid] <==> Count(before, order.ticker) != order.quantity)
            && (order.ticker in out.db.portfolios[uid] ==> out.db.portfolios[uid][order.ticker] != 0)
            && (forall t :: t in before && t != order.ticker ==>
                  t in out.db.portfolios[uid] && out.db.portfolios[uid][t] == before[t])
            && (forall u :: u in db.portfolios && u != uid ==> out.db.portfolios[u] == db.portfolios[u])
  {
  }

  /**
   * A successful trade merges exactly one record of what was traded, at which
   * price and when, into the user's history: the old history is kept as a
   * prefix, and a record equal to one already there is not added twice.
   * The transactions endpoint then returns that history. No other user's
   * history changes.
   */
  lemma TradeRecordsOneTransaction(db: Db, authorization: Option<string>, body: TradeBody,
                                   verify: string -> Option<Uid>, quoteOf: Ticker -> Quote, now: int,
                                   uid: Uid, order: Order, price: real)
    requires Authenticate(authorization, verify) == Success(uid)
    requires Validate(body) == Success(order)
    requires quoteOf(order.ticker) == Priced(price)
    requires Trade(db, authorization, body, verify, quoteOf, now).response.Traded?
    ensures var out := Trade(db, authorization, body, verify, quoteOf, now);
            var record := Transaction(order.ticker, order.quantity, order.action, price, now);
            var before := StoredHistory(db.transactions, uid);
            var after := StoredHistory(out.db.transactions, uid);
            && record in after
            && after[..|before|] == before
            && |after| == (if record in before then |before| else |before| + 1)
            && (forall x :: x in after ==> x in before || x == record)
            && GetTransactions(out.db, authorization, verify) == History(after)
            && (forall u :: u in db.transactions && u != uid ==> out.db.transactions[u] == db.transactions[u])
  {
  }

  /** Every user's every stored count is positive. */
  ghost predicate AllPositive(db: Db) {
    forall u, t :: u in db.portfolios && t in db.portfolios[u] ==> db.portfolios[u][t] > 0
  }

  /** Requests with a positive quantity keep every stored count positive. */
  lemma PositiveQuantitiesKeepHoldingsPositive(db: Db, authorization: Option<string>, body: TradeBody,
                                               verify: string -> Option<Uid>, quoteOf: Ticker -> Quote, now: int)
    requires AllPositive(db)
    requires body.quantity.Some? && body.quantity.value > 0
    ensures AllPositive(Trade(db, authorization, body, verify, quoteOf, now).db)
  {
  }

  /**
   * Without a positivity check, a sell of -5 shares of a ticker not held
   * gives the user 5 shares, and a buy of -5 against 5 held stores a zero.
   */
  lemma NegativeQuantitiesBreakPositivity()
    ensures Sold(map[], "AAPL", -5) == Success(map["AAPL" := 5])
    ensures Bought(map["AAPL" := 5], "AAPL", -5) == map["AAPL" := 0]
  {
  }

  /**
   * Buying `q` shares and then selling them again restores the holdings,
   * provided the ticker was either absent or held in a positive count.
   */
  lemma {:induction false} BuyThenSellRestoresHoldings(h: Holdings, t: Ticker, q: int)
    requires t in h ==> h[t] > 0
    ensures Sold(Bought(h, t, q), t, q) == Success(h)
  {
    var b := Bought(h, t, q);
    if t in h {
      assert b[t := h[t]] == h;
    } else {
      assert b - {t} == h;
    }
  }
}
