# Stock-trading demo: trade ledger and client state, in Dafny

This project models the part of a small stock-trading web application that
keeps state:

- **The backend trade ledger.** The Flask endpoint `/api/trade` keeps two documents per user. The first is a portfolio that maps each ticker to a share count. The second is a transaction history, an array merged with set-union semantics. The endpoint checks the bearer token, then the request fields, then the price. Only after all three checks does it write anything. A buy increments the ticker's count. A sell refuses when too few shares are held, subtracts otherwise, and deletes the ticker when its count reaches exactly 0. Every success merges one record into the history. One quirk is kept: when the user has no portfolio document, the endpoint answers `[]` and writes nothing. `/api/portfolio` lists the holdings row by row. `/api/transactions` returns the stored history.
- **The portfolio cache** (`PortfolioProvider`). It has two slots, `portfolio` and `error`. A refresh makes at most one request. A successful refresh replaces the list wholesale and clears the error. A failed refresh sets the error and keeps the last list.
- **The trade form** (`TradeForm`). Its `message` and `error` slots are set by `handleTrade` from the outcome of its single request. A success also fires one portfolio refresh.

The token verifier and the price service are external. They are passed in as functions: `verify: string -> Option<Uid>` and `quoteOf: Ticker -> Quote`. The clock is a parameter, `now`. On the frontend, each remote call is replaced by its outcome, which is fed to the method as an event.

Files:

- `wrappers.dfy`: `Option` and `Result`.
- `numerals.dfy`: Python's `str(int)`, JavaScript's `parseInt` on a number input, and the `.2f` price format.
- `ledger.dfy`: the trade rules as pure functions over the documents, with the spec function `Trade`.
- `ledger_properties.dfy`: what a trade does in each outcome.
- `backend.dfy`: class `Server`, which holds the two collections. Its `TradeStock` updates them step by step and is proved equal to `Trade`. It also holds the loop that builds the portfolio rows.
- `portfolio_context.dfy`, `trade_form.dfy`: the two client state machines.
- `end_to_end.dfy`: how the form's request body and the server's reply connect, plus scenario methods that call both models in turn; the verifier checks their assertions.

Some behaviour of the code is easy to mistake, and the model follows the code:

- The backend upper-cases the ticker. The form sends it as typed.
- The backend does no positivity check. A quantity of 0 is refused, but a negative one is accepted (`LedgerProperties.NegativeQuantityIsValid`, `LedgerProperties.NegativeQuantitiesBreakPositivity`).
- The cache starts as an empty list with no error. This state cannot be told apart from a loaded empty portfolio (`EndToEnd.NotYetLoadedScenario`).
- Concurrent refreshes are not de-duplicated. Each call makes its own request.

One consequence across both ends: when the user has no portfolio document, a trade answers 200 with `[]`. That reply has no `message` field, so the form ends with neither a message nor an error (`EndToEnd.TradeWithoutPortfolioScenario`). `TradeForm.TradeFormState.HandleTrade` therefore promises that exactly one slot is set only when the OK reply carries a message.

## Model

| member | source | states |
|---|---|---|
| Ledger.Authenticate | backend/main.py:67-76 | succeeds exactly when the header is present and non-empty and the token verifies to a non-empty uid, yielding that uid; otherwise a 401 error |
| Ledger.Upper | backend/main.py:80 | upper-casing keeps the length and maps every character through ASCII upper-casing |
| Ledger.Validate | backend/main.py:78-88 | a missing ticker is an unhandled exception; otherwise accepted exactly when the ticker is non-empty, the quantity is present and non-zero and the action is "buy" or "sell", giving the upper-cased ticker; every other case is 400 "Invalid request data" |
| Ledger.ParseAction | backend/main.py:86 | only "buy" and "sell" are actions, and each reads back to its spelling |
| Ledger.Bought | backend/main.py:111-115 | a buy adds the quantity to the ticker's count, a missing ticker counting as 0; the keys become the old keys plus the ticker; other tickers keep their counts |
| Ledger.Sold | backend/main.py:117-132 | refused with 400 "Insufficient stocks to sell" exactly when the count (default 0) is below the quantity; otherwise the count drops by the quantity, the ticker stays exactly when the new count is non-zero, and other tickers are untouched |
| Ledger.ArrayUnion | backend/main.py:145-148 | the history gains the record unless an equal record is already present; the old history stays a prefix; the length grows by 1 or 0 |
| Ledger.Record | backend/main.py:145-148 | the merge-write creates a missing document or field, stores the union of the old history with the record, and leaves other users' documents alone |
| Ledger.GetTransactions | backend/main.py:194-215 | an auth failure gives exactly the gate's 401 error ("No token provided" or "Invalid token"); an authenticated user gets exactly the stored `history` list, and `[]` when the document or its `history` field is missing |
| Backend.BuildRows | backend/main.py:177-189 | one row per held ticker with no ticker repeated, each row carrying the stored count, the quoted price (0 when there is none) and count times price; a price lookup that raises ends the loop with its message |
| Backend.Server.constructor | backend/main.py:18-19 | the server starts over the given collections |
| Backend.Server.TradeStock | backend/main.py:58-153 | the step-by-step update of both collections gives exactly the response and store of `Ledger.Trade` |
| Backend.Server.GetPortfolio | backend/main.py:155-192 | 401 behind the auth gate; `[]` for a user without a portfolio document; otherwise a complete row list, or a 500 naming a ticker whose lookup raised, and only then |
| LedgerProperties.MissingTokenIsRefused | backend/main.py:68-71 | a missing or empty header gives 401 "No token provided" whatever the body is, and the store is unchanged |
| LedgerProperties.InvalidTokenIsRefused | backend/main.py:73-76 | a token that does not verify gives 401 "Invalid token" and the store is unchanged |
| LedgerProperties.MissingTickerIsUnhandled | backend/main.py:78-80 | an authenticated body with no ticker crashes before validation and writes nothing |
| LedgerProperties.InvalidRequestIsRefused | backend/main.py:86-88 | an empty ticker, a missing or zero quantity, or an unknown action gives 400 and the store is unchanged |
| LedgerProperties.NegativeQuantityIsValid | backend/main.py:86 | a negative quantity passes validation |
| LedgerProperties.UnpricedTickerIsNotFound | backend/main.py:92-96 | a ticker with no current price gives 404 naming the upper-cased ticker, and nothing is written |
| LedgerProperties.MissingPortfolioReturnsEmptyList | backend/main.py:104-106 | without a portfolio document, a valid priced buy or sell answers `[]` and writes neither collection |
| LedgerProperties.FailedTradeChangesNothing | backend/main.py:90-121 | every response other than a success message leaves both collections unchanged |
| LedgerProperties.BuyAddsQuantity | backend/main.py:111-115 | a successful buy raises only that ticker's count by the quantity (from 0 if missing); other tickers and other users are unchanged |
| LedgerProperties.InsufficientSellIsRefused | backend/main.py:117-121 | selling more than is held gives 400 "Insufficient stocks to sell" and the store is unchanged |
| LedgerProperties.SellSubtractsQuantity | backend/main.py:122-132 | a successful sell lowers the count by the quantity; the ticker is removed exactly when the count reaches 0, so no zero is stored; other tickers and users are unchanged |
| LedgerProperties.TradeRecordsOneTransaction | backend/main.py:137-148 | a successful trade merges one record of ticker, quantity, action, price and timestamp into the user's history, without duplicating an equal record, and the transactions endpoint then returns that history |
| LedgerProperties.PositiveQuantitiesKeepHoldingsPositive | backend/main.py:111-132 | if every stored count is positive and the request's quantity is positive, every count stays positive after the request |
| LedgerProperties.NegativeQuantitiesBreakPositivity | backend/main.py:111-132 | selling -5 of an unheld ticker creates 5 shares, and buying -5 against 5 stores a zero |
| LedgerProperties.BuyThenSellRestoresHoldings | backend/main.py:111-132 | buying q shares and then selling q restores the holdings when the ticker was absent or held in a positive count |
| Numerals.Show | backend/main.py:150 | the quantity is written with a leading minus exactly when it is negative |
| Numerals.FormatPrice | backend/main.py:150 | the price is written with a sign exactly when it is negative, a point and exactly two decimals |
| Numerals.RoundedCents | backend/main.py:150 | the cents written for a price are its magnitude times 100, rounded to the nearest integer, an exact tie going to the even neighbour as `.2f` does |
| Numerals.TiesGoToEven | backend/main.py:150 | exact ties round to the even cent: 10.125 gives 1012 cents and 0.125 is written "0.12" |
| Numerals.CentsText | backend/main.py:150 | a cent count is written as digits, a point and exactly two digits |
| Numerals.CentsTextValue | backend/main.py:150 | the digits before the point times 100 plus the two digits after it read back as the cent count |
| Numerals.FormatPriceValue | backend/main.py:150 | the unsigned part of a formatted price is the text of its rounded cents, so its digits read as the magnitude times 100, rounded |
| Numerals.ParseInt | frontend/src/components/TradeForm/index.tsx:34 | `parseInt` of empty text is NaN; text starting with a digit gives a non-negative integer; a negative result needs a leading minus; its value on written integers is fixed by `Numerals.ParseShow` |
| Numerals.ParseShow | frontend/src/components/TradeForm/index.tsx:34 | `parseInt` reads back an integer written by `str`, ignoring a following fraction or exponent |
| PortfolioContext.PortfolioProvider.constructor | frontend/src/context/PortfolioContext/index.tsx:32-33 | the cache starts with an empty list and no error |
| PortfolioContext.PortfolioProvider.FetchPortfolio | frontend/src/context/PortfolioContext/index.tsx:35-64 | at most one request per call; without a user only the error is set to "User not authenticated"; an OK answer replaces the list and clears the error; any failure sets "Error fetching portfolio" and keeps the list |
| PortfolioContext.PortfolioProvider.Mount | frontend/src/context/PortfolioContext/index.tsx:66-68 | mounting fires exactly one refresh, once |
| TradeForm.TradeFormState.constructor | frontend/src/components/TradeForm/index.tsx:6-10 | the form starts empty, with "buy" selected and neither message nor error |
| TradeForm.TradeFormState.EditTicker | frontend/src/components/TradeForm/index.tsx:61 | typing replaces the ticker text |
| TradeForm.TradeFormState.EditQuantity | frontend/src/components/TradeForm/index.tsx:68 | typing replaces the quantity text |
| TradeForm.TradeFormState.SelectAction | frontend/src/components/TradeForm/index.tsx:74 | choosing replaces the action |
| TradeForm.TradeFormState.HandleTrade | frontend/src/components/TradeForm/index.tsx:14-52 | without a user only the error changes; a request carries the typed ticker, the parsed quantity and the action; success sets the server's message, clears the error and fires one refresh; any failure sets "Error executing trade" and clears the message; after an authenticated call at most one slot is set, and exactly one unless the OK reply has no message |
| TradeForm.RequestBody | frontend/src/components/TradeForm/index.tsx:32-36 | the request carries the ticker exactly as typed (no upper-casing), `parseInt` of the quantity text, and the selected action's name |
| EndToEnd.ReplyTo | frontend/src/components/TradeForm/index.tsx:40-45 | the form counts a reply as OK exactly for a 2xx status, and only a success message carries a `message` field |
| EndToEnd.FormTickerIsUpperCasedByServer | frontend/src/components/TradeForm/index.tsx:32-36 | a body the backend accepts has a non-empty ticker, and the order uses its upper-cased form and the selected action |
| EndToEnd.FormQuantityReachesServer | frontend/src/components/TradeForm/index.tsx:34 | a quantity typed as a non-zero integer, possibly followed by a fraction or exponent, reaches the order as that integer |
| EndToEnd.FormZeroQuantityIsRefused | frontend/src/components/TradeForm/index.tsx:34 | an empty quantity box (sent as `null`) or one that reads as 0 is refused with 400 |

## Left out

- External services are left out: the document store, the price service, token verification, Flask routing and CORS. Verification and price lookup are function parameters. Failures of the document store (exceptions inside the `try`, which become 500) are not modelled. Only an exception from the price lookup is.
- Floating point is not modelled. Prices are exact `real`s. `total_value` is the exact product. `FormatPrice` rounds the exact value to the nearest cent with ties to even, as `.2f` does; Python rounds the binary double instead, so a price such as 2.675, stored just below, is written 2.67 by the source and 2.68 by the model.
- A `currentPrice` key holding `null` is not modelled: a quote either has a price or has none. In the source such a quote passes the price check, both writes happen, and then formatting the success message with `.2f` raises, so the client gets a 500 for a trade that was applied.
- Quantities are integers in the model. The source also accepts a fractional JSON number: it is truthy, so a buy increments and a sell subtracts by it, the answer is a 200 success and a fractional count is stored.
- Request fields of other JSON types are not modelled: a numeric ticker, a text quantity (an empty text is falsy and refused with 400; a non-empty one fails the comparison or the increment), and a request with no JSON body.
- Ledger.Bought: the model stores every ticker as a flat key. The store's `update()` reads a key containing "." (such as "VOD.L") as a nested field path, so a later `portfolio.get` of that ticker does not find it; this is not modelled. The model's counts are also unbounded, whereas the store keeps 64-bit integers: `Increment` saturates at 2^63 - 1 (or -2^63) when the sum overflows, so holding 9000000000000000000 shares and buying as many again stores 9223372036854775807 in the source and 18000000000000000000 in the model; a quantity that does not fit 64 bits makes the write fail with a 500.
- Ledger.Sold: same as `Ledger.Bought`; a ticker containing "." is read back as 0 in the source, so selling a positive quantity of it is refused, whereas the model finds the flat key. A new count outside the 64-bit range makes the source's write fail with a 500, which the model, with unbounded counts, does not represent.
- `Ledger.Upper` covers ASCII only. Python's full Unicode case mapping is not modelled.
- `Numerals.ParseInt` covers only the text a number input can hold. It does not model leading whitespace, the `0x` prefix, or precision loss beyond 2^53.
- `Backend.BuildRows` does not fix the row order. The source follows the stored document's key order, which the model does not represent.
- The clock is the `now` parameter.
- Concurrency is left out. The gap between reading the portfolio and writing it is not modelled, and neither is the interleaving of requests. Requests are strictly sequential.
- On the frontend, getting the user, getting the token, `fetch`, JSON decoding, React hooks and rendering are left out. Each outcome is an event.
- The refresh fired by a successful trade is counted (`refreshes`) but not awaited. Its own outcome is a separate `FetchPortfolio` event.
- The quote lookup (`/api/query` and the StockQuery component) is not part of this model. It is a thin wrapper around the price service plus display.
- The Transactions, Portfolio, Header and Login components, `App.tsx` and `firebase.ts` are presentation or configuration and are not part of this model.
