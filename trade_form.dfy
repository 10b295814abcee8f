/**
 * The trade form: three input slots, and the `message` and `error` slots
 * that `handleTrade` sets according to how its one request ends. A success
 * fires a portfolio refresh without waiting for it.
 */
module TradeForm {
  import opened Wrappers
  import opened Ledger
  import Numerals

  /** The body `handleTrade` posts: the ticker as typed, `parseInt` of the quantity text, the action. */
  function RequestBody(ticker: string, quantityText: string, action: Action): (b: TradeBody)
    ensures b.ticker == Some(ticker)
    ensures b.quantity == Numerals.ParseInt(quantityText)
    ensures b.action == Some(ActionName(action))
  {
    TradeBody(Some(ticker), Numerals.ParseInt(quantityText), Some(ActionName(action)))
  }

  /** What came back for a request that was sent. */
  datatype Reply =
    | Ok(message: Option<string>)  // a 2xx answer whose body parsed; `message` is its `message` field
    | NotOk                        // a non-2xx answer
    | Unparsable                   // a 2xx answer whose body is not JSON

  /** How one `handleTrade` call ends. */
  datatype TradeEvent =
    | NoUser                // no signed-in user: nothing is sent
    | TokenFailed           // the ID token could not be obtained: nothing is sent
    | NetworkFailed         // the request was sent and `fetch` threw
    | Answered(reply: Reply)

  predicate Succeeded(event: TradeEvent) {
    event.Answered? && event.reply.Ok?
  }

  class TradeFormState {
    var ticker: string
    var quantity: string
    var action: Action
    var message: Option<string>
    var error: Option<string>
    /** Portfolio refreshes this form has fired. */
    var refreshes: nat

    constructor ()
      ensures ticker == "" && quantity == "" && action == Buy
      ensures message == None && error == None && refreshes == 0
    {
      ticker, quantity, action := "", "", Buy;
      message, error := None, None;
      refreshes := 0;
    }

    method EditTicker(text: string)
      modifies this`ticker
      ensures ticker == text
    {
      ticker := text;
    }

    method EditQuantity(text: string)
      modifies this`quantity
      ensures quantity == text
    {
      quantity := text;
    }

    method SelectAction(choice: Action)
      modifies this`action
      ensures action == choice
    {
      action := choice;
    }

    /**
     * `handleTrade`: returns the body it sent, if any. Without a user only
     * the error is set. On an OK answer the message becomes the server's,
     * the error is cleared and one refresh is fired; on any failure the error
     * is set, the message cleared, and nothing is refreshed.
     */
    method HandleTrade(event: TradeEvent) returns (sent: Option<TradeBody>)
      modifies this`message, this`error, this`refreshes
      ensures sent == if event.NoUser? || event.TokenFailed? then None else Some(RequestBody(ticker, quantity, action))
      ensures event.NoUser? ==>
                error == Some("User not authenticated") && message == old(message) && refreshes == old(refreshes)
      ensures Succeeded(event) ==>
                message == event.reply.message && error == None && refreshes == old(refreshes) + 1
      ensures !event.NoUser? && !Succeeded(event) ==>
                error == Some("Error executing trade") && message == None && refreshes == old(refreshes)
      ensures !event.NoUser? ==> message.None? || error.None?
      ensures !event.NoUser? ==>
                (message.Some? || error.Some? <==> !(Succeeded(event) && event.reply.message.None?))
    {
      if event.NoUser? {
        error := Some("User not authenticated");
        return None;
      }
      if event.TokenFailed? {
        error := Some("Error executing trade");
        message := None;
        return None;
      }
      sent := Some(RequestBody(ticker, quantity, action));
      if Succeeded(event) {
        message := event.reply.message;
        error := None;
        refreshes := refreshes + 1;
      } else {
        error := Some("Error executing trade");
        message := None;
      }
    }
  }
}
