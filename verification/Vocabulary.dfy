/** The states and kinds of a dispute (internal/dispute/dispute.go). */
module Vocabulary {

  datatype State =
    | Received | Resolving | DraftReady | Represented
    | Refunded | Won | Lost | Expired

  datatype Kind = Alert | Chargeback

  /** The states that carry a resolved_at timestamp. */
  predicate Terminal(s: State) {
    s == Refunded || s == Won || s == Lost || s == Expired
  }

  /** The states whose deadline the worker still sweeps. */
  predicate OnTheClock(s: State) {
    s == Received || s == Resolving || s == DraftReady
  }

  /** The states in which a chargeback's funds are held. */
  predicate Holding(s: State) {
    OnTheClock(s) || s == Represented
  }
}
