/**
  The status of a resource transfer in src/rnsapi/rns/resources.py: what RNS reports, the fallback for what it
  does not name, and the two values the service sets itself.
*/
module Statuses {
  datatype Status =
    | NONE | QUEUED | ADVERTISED | TRANSFERRING | AWAITING_PROOF | ASSEMBLING
    | COMPLETE | FAILED | CORRUPT | REJECTED | UNKNOWN | PENDING | CANCELLED

  /** The statuses for which `delete` cancels first: none of the five endings, nor NONE and UNKNOWN. */
  predicate InFlight(st: Status): (r: bool)
    ensures r <==> !st.NONE? && !st.COMPLETE? && !st.FAILED? && !st.CORRUPT? && !st.REJECTED? && !st.UNKNOWN?
                   && !st.CANCELLED?
  {
    || st == TRANSFERRING || st == QUEUED || st == ADVERTISED
    || st == PENDING || st == ASSEMBLING || st == AWAITING_PROOF
  }
}
