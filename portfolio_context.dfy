/**
 * The frontend's shared portfolio cache: two state slots, `portfolio` and
 * `error`, updated by `fetchPortfolio` according to how its one request ends.
 */
module PortfolioContext {
  import opened Wrappers
  import opened Ledger

  /** How one `fetchPortfolio` call ends. */
  datatype FetchOutcome =
    | NoUser                            // no signed-in user: no request is made
    | TokenFailed                       // the ID token could not be obtained: no request is made
    | RequestFailed                     // the request threw, answered non-OK, or its body did not parse
    | Fetched(data: seq<PortfolioRow>)  // the request answered OK with this list

  /** Whether the call got as far as sending its request to `/api/portfolio`. */
  predicate Requested(outcome: FetchOutcome) {
    outcome.RequestFailed? || outcome.Fetched?
  }

  class PortfolioProvider {
    var portfolio: seq<PortfolioRow>
    var error: Option<string>
    /** Requests sent to `/api/portfolio` so far. */
    var requests: nat
    /** Whether the mount-time refresh has been fired. */
    var mounted: bool

    /** Before any refresh: an empty list and no error, the same as a loaded empty portfolio. */
    constructor ()
      ensures portfolio == [] && error == None
      ensures requests == 0 && !mounted
    {
      portfolio := [];
      error := None;
      requests := 0;
      mounted := false;
    }

    /**
     * `fetchPortfolio`: at most one request, no retry. Without a user the
     * error is set and nothing else changes; an OK answer replaces the list
     * wholesale and clears the error; any failure sets the error and keeps the
     * last list.
     */
    method FetchPortfolio(outcome: FetchOutcome)
      modifies this`portfolio, this`error, this`requests
      ensures requests == old(requests) + (if Requested(outcome) then 1 else 0)
      ensures outcome.NoUser? ==> error == Some("User not authenticated") && portfolio == old(portfolio)
      ensures outcome.Fetched? ==> portfolio == outcome.data && error == None
      ensures (outcome.TokenFailed? || outcome.RequestFailed?) ==>
                error == Some("Error fetching portfolio") && portfolio == old(portfolio)
    {
      if outcome.NoUser? {
        error := Some("User not authenticated");
        return;
      }
      if outcome.TokenFailed? {
        error := Some("Error fetching portfolio");
        return;
      }
      requests := requests + 1;
      match outcome
      case Fetched(data) =>
        portfolio := data;
        error := None;
      case RequestFailed =>
        error := Some("Error fetching portfolio");
    }

    /** The provider's mount effect: exactly one refresh, fired once. */
    method Mount(outcome: FetchOutcome)
      requires !mounted
      modifies this
      ensures mounted
      ensures requests == old(requests) + (if Requested(outcome) then 1 else 0)
      ensures outcome.NoUser? ==> error == Some("User not authenticated") && portfolio == old(portfolio)
      ensures outcome.Fetched? ==> portfolio == outcome.data && error == None
      ensures (outcome.TokenFailed? || outcome.RequestFailed?) ==>
                error == Some("Error fetching portfolio") && portfolio == old(portfolio)
    {
      mounted := true;
      FetchPortfolio(outcome);
    }
  }
}
