/**
 * Cooperative cancellation. The progress indicator's `isCanceled` is read at fixed
 * points of the code; the model numbers those reads (polls) from 0. Cancelling is
 * final: the input is the first poll that sees the indicator cancelled, if any,
 * and every later poll sees it too.
 */
module Cancellation {
  import opened Wrappers

  /** The first poll that answers `true`, or `None` when the user never cancels. */
  type CancelPoint = Option<nat>

  function Canceled(cancel: CancelPoint, poll: nat): bool
  {
    cancel.Some? && cancel.value <= poll
  }

  /** The user never cancels. */
  predicate NeverCanceled(cancel: CancelPoint)
  {
    cancel.None?
  }
}
