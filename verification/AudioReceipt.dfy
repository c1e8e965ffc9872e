/**
 The caller-owned playback receipt: one atomic state settled by compare-and-swap.
 The pure transitions are shared with the step machine in AudioProtocol.
 */
module AudioReceipt {

  datatype ReceiptState =
    | Pending
    | CancelRequested
    | Started
    | FailedBeforeStart
    | Unavailable
    | CancelledBeforeStart

  /** The caller must keep the receipt alive in these states. */
  predicate Owned(state: ReceiptState) {
    state == Pending || state == CancelRequested
  }

  /** compare_exchange_strong(Pending, desired). */
  function SwapPending(state: ReceiptState, desired: ReceiptState): ReceiptState {
    if state == Pending then desired else state
  }

  class AudioPlaybackReceipt {
    var state: ReceiptState

    constructor ()
      ensures state == Unavailable && !Owned(state)
    {
      state := Unavailable;
    }

    method RequestCancellation() returns (won: bool)
      modifies this
      ensures won <==> old(state) == Pending
      ensures state == SwapPending(old(state), CancelRequested)
    {
      won := state == Pending;
      if won { state := CancelRequested; }
    }

    method TryStart() returns (won: bool)
      modifies this
      ensures won <==> old(state) == Pending
      ensures state == SwapPending(old(state), Started)
    {
      won := state == Pending;
      if won { state := Started; }
    }

    method IsOwned() returns (owned: bool)
      ensures owned <==> Owned(state)
    {
      var current := state;
      owned := current == Pending || current == CancelRequested;
    }
  }
}
