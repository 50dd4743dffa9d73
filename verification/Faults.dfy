/** How calls out of the model fail. */
module Faults {

  /** A failure that the state does not explain; there is none where calls are reliable. */
  method Fault(reliable: bool) returns (fault: bool)
    ensures reliable ==> !fault
  {
    fault := *;
    fault := fault && !reliable;
  }
}
