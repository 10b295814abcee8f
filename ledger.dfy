/**
 * The trade ledger rule of the backend's `/api/trade` endpoint and the read
 * of `/api/transactions`, as pure functions over the stored documents.
 *
 * The store has two collections keyed by user id: `portfolios`, one document
 * per user mapping each ticker to a share count, and `transactions`, one
 * document per user whose `history` field is an array of trade records.
 * Token verification and the price lookup are services outside the model and
 * are passed in as functions.
 */
module Ledger {
  import opened Wrappers
  import Numerals

  type Uid = string
  type Ticker = string

  /** The fields of a portfolio document: ticker to number of shares held. */
  type Holdings = map<Ticker, int>

  datatype Action = Buy | Sell

  /** How an action is spelled in a request body and in a stored record. */
  function ActionName(a: Action): string {
    match a
    case Buy => "buy"
    case Sell => "sell"
  }

  function PastTense(a: Action): string {
    match a
    case Buy => "bought"
    case Sell => "sold"
  }

  /**
   * The JSON body of a trade request, field by field; `None` is a field that
   * is absent or `null`.
   */
  datatype TradeBody = TradeBody(ticker: Option<string>, quantity: Option<int>, action: Option<string>)

  /** A request that passed validation; the ticker is already upper-cased. */
  datatype Order = Order(ticker: Ticker, quantity: int, action: Action)

  /** One element of a user's `history` array. */
  datatype Transaction = Transaction(ticker: Ticker, quantity: int, action: Action, price: real, timestamp: int)

  /** A document of the `transactions` collection; `history` is `None` when the field is missing. */
  datatype TransactionsDoc = TransactionsDoc(history: Option<seq<Transaction>>)

  /** Both collections; a user id absent from a map is a document that does not exist. */
  datatype Db = Db(portfolios: map<Uid, Holdings>, transactions: map<Uid, TransactionsDoc>)

  /** One element of the list `/api/portfolio` returns. */
  datatype PortfolioRow = PortfolioRow(ticker: Ticker, quantity: int, currentPrice: real, totalValue: real)

  /**
   * What the price service says about a ticker: it raised an exception, it
   * has no `currentPrice`, or it quotes one.
   */
  datatype Quote = Raised(reason: string) | NoPrice | Priced(price: real)

  /** The responses of the three endpoints. */
  datatype Response =
    | Traded(message: string)              // 200, {"message": ...}
    | EmptyList                            // 200, [] from the trade endpoint
    | Rows(rows: seq<PortfolioRow>)        // 200, the portfolio list
    | History(records: seq<Transaction>)   // 200, the transaction list
    | Error(status: nat, error: string)    // {"error": ...} with that status
    | Unhandled                            // an exception escaped the handler: a bare 500

  function Status(r: Response): nat {
    match r
    case Error(status, _) => status
    case Unhandled => 500
    case _ => 200
  }

  /** A trade's response together with the store it leaves behind. */
  datatype Outcome = Outcome(response: Response, db: Db)

  // ---------------------------------------------------------------------------
  // Authentication

  /**
   * The auth gate shared by the endpoints: a missing or empty `Authorization`
   * header, then a token that does not verify to a non-empty user id, are both
   * refused with 401.
   */
  function Authenticate(authorization: Option<string>, verify: string -> Option<Uid>): (r: Result<Uid, Response>)
    ensures r.Success? <==>
              authorization.Some? && authorization.value != ""
              && verify(authorization.value).Some? && verify(authorization.value).value != ""
    ensures r.Success? ==> verify(authorization.value) == Some(r.value)
    ensures r.Failure? ==> r.error.Error? && r.error.status == 401
  {
    if authorization.None? || authorization.value == "" then Failure(Error(401, "No token provided"))
    else
      var uid := verify(authorization.value);
      if uid.None? || uid.value == "" then Failure(Error(401, "Invalid token"))
      else Success(uid.value)
  }

  // ---------------------------------------------------------------------------
  // Validation

  predicate IsLower(c: char) {
    'a' <= c <= 'z'
  }

  /** Python's `str.upper` on one ASCII character. */
  function UpperChar(c: char): (u: char)
    ensures !IsLower(u)
    ensures IsLower(c) ==> u as int == c as int - 32
    ensures !IsLower(c) ==> u == c
  {
    if IsLower(c) then (c as int - 32) as char else c
  }

  /** Python's `str.upper` on ASCII text. */
  function Upper(s: string): (r: string)
    ensures |r| == |s|
    ensures forall i :: 0 <= i < |s| ==> r[i] == UpperChar(s[i])
  {
    if s == [] then [] else [UpperChar(s[0])] + Upper(s[1..])
  }

  /** Python truthiness of an optional text field. */
  predicate TruthyText(field: Option<string>) {
    field.Some? && field.value != ""
  }

  /** Python truthiness of an optional integer field. */
  predicate TruthyNumber(field: Option<int>) {
    field.Some? && field.value != 0
  }

  function ParseAction(s: string): (a: Option<Action>)
    ensures a.Some? <==> s == "buy" || s == "sell"
    ensures a.Some? ==> ActionName(a.value) == s
  {
    if s == "buy" then Some(Buy) else if s == "sell" then Some(Sell) else None
  }

  /**
   * The field checks of a trade request. A missing ticker fails at
   * upper-casing, before the checks, with an unhandled exception; otherwise
   * the request is refused with 400 when the ticker, the quantity or the
   * action is falsy or the action is neither "buy" nor "sell". A quantity of
   * 0 is refused; a negative one is not.
   */
  function Validate(body: TradeBody): (r: Result<Order, Response>)
    ensures body.ticker.None? ==> r == Failure(Unhandled)
    ensures body.ticker.Some? ==>
              (r.Success? <==>
                 body.ticker.value != "" && TruthyNumber(body.quantity)
                 && (body.action == Some("buy") || body.action == Some("sell")))
    ensures body.ticker.Some? && r.Failure? ==> r.error == Error(400, "Invalid request data")
    ensures r.Success? ==>
              && r.value.ticker == Upper(body.ticker.value)
              && Some(r.value.quantity) == body.quantity
              && Some(ActionName(r.value.action)) == body.action
  {
    match body.ticker
    case None => Failure(Unhandled)
    case Some(raw) =>
      var ticker := Upper(raw);
      if ticker == "" || !TruthyNumber(body.quantity) || !TruthyText(body.action) then
        Failure(Error(400, "Invalid request data"))
      else
        match ParseAction(body.action.value)
        case None => Failure(Error(400, "Invalid request data"))
        case Some(action) => Success(Order(ticker, body.quantity.value, action))
  }

  // ---------------------------------------------------------------------------
  // The portfolio update

  /** The shares held of `t`, 0 when the document has no such field. */
  function Count(h: Holdings, t: Ticker): int {
    if t in h then h[t] else 0
  }

  /**
   * A buy: an atomic increment of the ticker's field by the quantity, a
   * missing field counting as 0. Every other field is left alone.
   */
  function Bought(h: Holdings, t: Ticker, q: int): (r: Holdings)
    ensures r.Keys == h.Keys + {t}
    ensures Count(r, t) == Count(h, t) + q
    ensures forall k :: k in h && k != t ==> r[k] == h[k]
  {
    h[t := Count(h, t) + q]
  }

  /**
   * A sell: refused with 400 when fewer than `q` shares are held; otherwise
   * the count drops by `q`, and a count that reaches exactly 0 removes the
   * field. Every other field is left alone.
   */
  function Sold(h: Holdings, t: Ticker, q: int): (r: Result<Holdings, Response>)
    ensures r.Failure? <==> Count(h, t) < q
    ensures r.Failure? ==> r.error == Error(400, "Insufficient stocks to sell")
    ensures r.Success? ==>
              && Count(r.value, t) == Count(h, t) - q
              && (t in r.value <==> Count(h, t) != q)
              && r.value.Keys - {t} == h.Keys - {t}
              && (forall k :: k in h && k != t ==> k in r.value && r.value[k] == h[k])
  {
    var current := Count(h, t);
    if current < q then Failure(Error(400, "Insufficient stocks to sell"))
    else if current - q == 0 then Success(h - {t})
    else Success(h[t := current - q])
  }

  function Execute(h: Holdings, order: Order): Result<Holdings, Response> {
    match order.action
    case Buy => Success(Bought(h, order.ticker, order.quantity))
    case Sell => Sold(h, order.ticker, order.quantity)
  }

  // ---------------------------------------------------------------------------
  // The transaction history

  /**
   * Firestore's `ArrayUnion([t])`: `t` is appended unless an equal element is
   * already in the array, in which case the array is unchanged.
   */
  function ArrayUnion(history: seq<Transaction>, t: Transaction): (r: seq<Transaction>)
    ensures forall x :: x in r <==> x in history || x == t
    ensures |r| == if t in history then |history| else |history| + 1
    ensures r[..|history|] == history
  {
    if t in history then history else history + [t]
  }

  /** The `history` a user's document holds, `[]` when the document or the field is missing. */
  function StoredHistory(docs: map<Uid, TransactionsDoc>, uid: Uid): seq<Transaction> {
    if uid in docs then docs[uid].history.GetOr([]) else []
  }

  /** A merge-write of `history: ArrayUnion([t])`: it creates the document or the field when missing. */
  function Record(docs: map<Uid, TransactionsDoc>, uid: Uid, t: Transaction): (r: map<Uid, TransactionsDoc>)
    ensures r.Keys == docs.Keys + {uid}
    ensures StoredHistory(r, uid) == ArrayUnion(StoredHistory(docs, uid), t)
    ensures forall u :: u in docs && u != uid ==> r[u] == docs[u]
  {
    docs[uid := TransactionsDoc(Some(ArrayUnion(StoredHistory(docs, uid), t)))]
  }

  /**
   * The `/api/transactions` endpoint: behind the auth gate, the stored history,
   * `[]` when the document or its field is missing.
   */
  function GetTransactions(db: Db, authorization: Option<string>, verify: string -> Option<Uid>): (r: Response)
    ensures Authenticate(authorization, verify).Failure? ==> r == Authenticate(authorization, verify).error
    ensures Authenticate(authorization, verify).Success? ==>
              var uid := Authenticate(authorization, verify).value;
              && r.History?
              && r.records == (if uid in db.transactions && db.transactions[uid].history.Some?
                               then db.transactions[uid].history.value else [])
  {
    match Authenticate(authorization, verify)
    case Failure(denied) => denied
    case Success(uid) => History(StoredHistory(db.transactions, uid))
  }

  // ---------------------------------------------------------------------------
  // The trade endpoint

  function SuccessMessage(order: Order, price: real): string {
    "Successfully " + PastTense(order.action) + " " + Numerals.Show(order.quantity)
    + " shares of " + order.ticker + " at $" + Numerals.FormatPrice(price) + " per share"
  }

  /**
   * `/api/trade`, request by request: the auth gate, the field checks, the
   * price lookup, the missing-portfolio quirk (an empty list, no write), the
   * portfolio update, and on success one record merged into the history.
   */
  function Trade(db: Db, authorization: Option<string>, body: TradeBody,
                 verify: string -> Option<Uid>, quoteOf: Ticker -> Quote, now: int): Outcome
  {
    match Authenticate(authorization, verify)
    case Failure(denied) => Outcome(denied, db)
    case Success(uid) =>
      match Validate(body)
      case Failure(invalid) => Outcome(invalid, db)
      case Success(order) =>
        match quoteOf(order.ticker)
        case Raised(reason) => Outcome(Error(500, reason), db)
        case NoPrice => Outcome(Error(404, "No data found for ticker: " + order.ticker), db)
        case Priced(price) =>
          if uid !in db.portfolios then Outcome(EmptyList, db)
          else
            match Execute(db.portfolios[uid], order)
            case Failure(refused) => Outcome(refused, db)
            case Success(holdings) =>
              var record := Transaction(order.ticker, order.quantity, order.action, price, now);
              Outcome(Traded(SuccessMessage(order, price)),
                      Db(db.portfolios[uid := holdings], Record(db.transactions, uid, record)))
  }
}
