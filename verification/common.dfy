/** Shared vocabulary: optional values, the exceptions the simulator can throw,
    and the name a pipeline stage uses to identify itself to the memory system. */
module Common {

  datatype Option<+T> = None | Some(value: T)

  /** The exceptions the simulator's code throws. */
  datatype Fault =
    | InvalidRegister(index: int)        // a general register outside 0..31
    | AddressOutOfBounds(address: int)   // a memory address outside 0..32767
    | NoCacheLine(index: int)            // cache[index] is undefined: index outside 0..15
    | NullOperation                      // the cache's pending operation record is null

  /** Either a value or the exception that interrupted its computation. */
  datatype Result<+T> = Ok(value: T) | Err(fault: Fault) {
    predicate IsFailure() { Err? }

    function PropagateFailure<U>(): Result<U>
      requires Err?
    {
      Err(fault)
    }

    function Extract(): T
      requires Ok?
    {
      value
    }
  }

  /** A requester: the name of the pipeline stage that issues a memory operation. */
  type Stage = string
}
