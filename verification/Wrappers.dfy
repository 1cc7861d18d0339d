/** Optional values, and the ways a remote call can end. */
module Wrappers {
  datatype Option<+T> = None | Some(value: T)

  /** How a call ends: answered; failed without effect; or carried out with its answer lost. */
  datatype Fate = Answered | Rejected | AnswerLost
}
