/** FileProcessParam of src/file.h: a progress counter and a user who may cancel. */
module Params {

  class Progress {
    var value: nat
    ghost var cancelled: bool
    /** How many steps were taken after the user had cancelled. */
    ghost var late: nat

    constructor ()
      ensures value == 0 && !cancelled && late == 0
    {
      value, cancelled, late := 0, false, 0;
    }
  }

  /** From a parameter that is not cancelled yet: the call returns 0 exactly if the user cancels in it,
      and takes no step after that. */
  twostate predicate Stops(param: Progress?, ret: int)
    reads param
  {
    param != null && !old(param.cancelled) ==> (ret == 0 <==> param.cancelled) && param.late == old(param.late)
  }

  /** The block that follows every step of the file operations: advance the counter, show it,
      and poll the cancel handler. The parameter may be null. */
  method Advance(param: Progress?, amount: nat) returns (cancel: bool)
    modifies param
    ensures param == null ==> !cancel
    ensures param != null ==> param.value == old(param.value) + amount
    ensures param != null ==> param.cancelled == (old(param.cancelled) || cancel)
    ensures param != null ==> param.late == old(param.late) + if old(param.cancelled) then 1 else 0
  {
    cancel := false;
    if param != null {
      param.value := param.value + amount;
      param.late := param.late + if param.cancelled then 1 else 0;
      cancel := *;
      param.cancelled := param.cancelled || cancel;
    }
  }
}
