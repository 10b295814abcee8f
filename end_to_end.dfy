/**
 * The trade path from the form to the store and back: what the backend makes
 * of the body the form sends, what the form makes of the backend's answer,
 * and scenario methods that call both models in turn, whose assertions the
 * verifier checks.
 */
module EndToEnd {
  import opened Wrappers
  import opened Ledger
  import Numerals
  import Backend
  import PortfolioContext
  import TradeForm

  /**
   * What the browser sees of a trade response: `response.ok` for a 2xx status, and
   * the body's `message` field, which only a success message has.
   */
  function ReplyTo(r: Response): (reply: TradeForm.Reply)
    ensures reply.Ok? <==> 200 <= Status(r) < 300
    ensures r.Traded? ==> reply == TradeForm.Ok(Some(r.message))
    ensures reply.Ok? && !r.Traded? ==> reply.message.None?
  {
    match r
    case Traded(text) => TradeForm.Ok(Some(text))
    case EmptyList => TradeForm.Ok(None)
    case Rows(_) => TradeForm.Ok(None)
    case History(_) => TradeForm.Ok(None)
    case Error(status, _) => if 200 <= status < 300 then TradeForm.Ok(None) else TradeForm.NotOk
    case Unhandled => TradeForm.NotOk
  }

  /**
   * The form sends the ticker as typed; only a body the backend accepts
   * becomes an order, and its ticker is the upper-cased text.
   */
  lemma FormTickerIsUpperCasedByServer(ticker: string, quantityText: string, action: Action, order: Order)
    requires Validate(TradeForm.RequestBody(ticker, quantityText, action)) == Success(order)
    ensures ticker != "" && order.ticker == Upper(ticker) && order.action == action
  {
  }

  /**
   * A quantity typed as a non-zero integer, possibly followed by a fraction
   * or an exponent, reaches the backend as that integer.
   */
  lemma FormQuantityReachesServer(ticker: string, n: int, rest: string, action: Action)
    requires ticker != "" && n != 0
    requires rest == [] || !Numerals.IsDigit(rest[0])
    ensures Validate(TradeForm.RequestBody(ticker, Numerals.Show(n) + rest, action))
            == Success(Order(Upper(ticker), n, action))
  {
    Numerals.ParseShow(n, rest);
  }

  /**
   * An empty quantity box (`NaN`, sent as `null`) and a quantity that reads
   * as 0 are both refused by the backend with 400.
   */
  lemma FormZeroQuantityIsRefused(ticker: string, quantityText: string, action: Action)
    requires quantityText == "" || Numerals.ParseInt(quantityText) == Some(0)
    ensures Validate(TradeForm.RequestBody(ticker, quantityText, action))
            == Failure(Error(400, "Invalid request data"))
  {
  }

  /** The token check of the scenarios: one user, one token. */
  function VerifyAlice(token: string): Option<Uid> {
    if token == "alice-token" then Some("alice") else None
  }

  /** The price service of the scenarios: every ticker at 150. */
  function FlatQuote(ticker: Ticker): Quote {
    Priced(150.0)
  }

  /**
   * A user types "aapl" and 5 and buys: the backend stores 5 shares of
   * "AAPL" and one record, and its answer reaches the form as an OK reply
   * carrying the success message.
   */
  method BuyFromFormScenario() {
    var server := new Backend.Server(Db(map["alice" := map[]], map[]));
    var form := new TradeForm.TradeFormState();
    form.EditTicker("aapl");
    form.EditQuantity("5");
    assert Numerals.Show(5) + "" == "5";
    FormQuantityReachesServer("aapl", 5, "", Buy);
    var body := TradeForm.RequestBody(form.ticker, form.quantity, form.action);
    assert Upper("aapl") == "AAPL";
    var order := Order("AAPL", 5, Buy);
    assert Validate(body) == Success(order);
    assert Authenticate(Some("alice-token"), VerifyAlice) == Success("alice");
    var response := server.TradeStock(Some("alice-token"), body, VerifyAlice, FlatQuote, 1700000000);
    assert response == Traded(SuccessMessage(order, 150.0));
    assert Bought(map[], "AAPL", 5) == map["AAPL" := 5];
    assert server.portfolios["alice"] == map["AAPL" := 5];
    assert Ledger.StoredHistory(server.transactions, "alice") == [Transaction("AAPL", 5, Buy, 150.0, 1700000000)];
    assert ReplyTo(response) == TradeForm.Ok(Some(SuccessMessage(order, 150.0)));
  }

  /**
   * The form's side of a successful buy: it sends the typed ticker and
   * quantity, shows the server's message, clears the error and fires one
   * portfolio refresh.
   */
  method FormShowsTradeMessageScenario(text: string) {
    var form := new TradeForm.TradeFormState();
    form.EditTicker("aapl");
    form.EditQuantity("5");
    var sent := form.HandleTrade(TradeForm.Answered(TradeForm.Ok(Some(text))));
    assert sent == Some(TradeForm.RequestBody("aapl", "5", Buy));
    assert form.message == Some(text) && form.error == None && form.refreshes == 1;
  }

  /**
   * A user without a portfolio document buys: the backend answers `[]` and
   * writes nothing, and the form is left showing neither a message nor an
   * error.
   */
  method TradeWithoutPortfolioScenario() {
    var server := new Backend.Server(Db(map[], map[]));
    var form := new TradeForm.TradeFormState();
    form.EditTicker("aapl");
    form.EditQuantity("5");
    assert Numerals.Show(5) + "" == "5";
    FormQuantityReachesServer("aapl", 5, "", Buy);
    var body := TradeForm.RequestBody(form.ticker, form.quantity, form.action);
    var response := server.TradeStock(Some("alice-token"), body, VerifyAlice, FlatQuote, 1700000000);
    assert response == EmptyList;
    assert server.portfolios == map[] && server.transactions == map[];
    var _ := form.HandleTrade(TradeForm.Answered(ReplyTo(response)));
    assert form.message == None && form.error == None && form.refreshes == 1;
  }

  /** A refresh that fails after one that loaded keeps the loaded list and sets the error. */
  method FailedRefreshScenario(row: PortfolioRow) {
    var provider := new PortfolioContext.PortfolioProvider();
    provider.Mount(PortfolioContext.Fetched([row]));
    provider.FetchPortfolio(PortfolioContext.RequestFailed);
    assert provider.portfolio == [row] && provider.error == Some("Error fetching portfolio");
    assert provider.requests == 2;
  }

  /** Before the first refresh, the cache looks exactly like one that loaded an empty portfolio. */
  method NotYetLoadedScenario() {
    var unloaded := new PortfolioContext.PortfolioProvider();
    var loaded := new PortfolioContext.PortfolioProvider();
    loaded.Mount(PortfolioContext.Fetched([]));
    assert unloaded.portfolio == loaded.portfolio && unloaded.error == loaded.error;
  }
}
