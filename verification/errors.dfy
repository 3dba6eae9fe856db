/** The failures the services raise, each carrying the merchant name or item code it concerns,
    and the two result shapes the operations return. */
module Errors {
  import opened Domain

  datatype Error =
    | DuplicateMerchant(merchantName: string)
    | MerchantNotFound(merchantName: string)
    | NotLoggedIn(merchantName: string)              // authorisation failure: no login yet
    | InvalidAuthorisationCode(merchantName: string) // authorisation failure: wrong code
    | DuplicateItem(itemCode: Int32)
    | ItemNotFound(itemCode: Int32)
  {
    /** The two failures the source raises as an authorisation exception. */
    predicate IsAuthorisationFailure() {
      NotLoggedIn? || InvalidAuthorisationCode?
    }
  }

  /** The outcome of an operation that returns a value or throws. */
  datatype Result<+T> = Ok(value: T) | Err(error: Error)

  /** The outcome of an operation that returns nothing or throws. */
  datatype Outcome = Pass | Fail(error: Error)
}
