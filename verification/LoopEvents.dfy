/** Contiguous event numbering for one loop execution, and the bounds every event keeps. */
module LoopEvents {

  const MAX_EVENT_PAYLOAD_BYTES := 1024 * 1024
  const MAX_IDENTIFIER := 255

  class EventFactory {
    var sequence: nat

    constructor ()
      ensures sequence == 0
    {
      sequence := 0;
    }

    method Metadata() returns (n: nat)
      modifies this
      ensures n == sequence == old(sequence) + 1
    {
      sequence := sequence + 1;
      n := sequence;
    }
  }
}
