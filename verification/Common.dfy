/** What several components share. */
module Common {

  datatype Option<T> = None | Some(value: T)

  datatype Result<T> = Ok(value: T) | Err(message: string)

  /** The finish time of what has not finished: 9998-01-11 11:11:11 UTC. */
  const FAR_FUTURE: int := 253340133071

  /** The size at which the scheduler's batching loops hand over. */
  const BATCH: nat := 1024

  /** Whether an operation of a component with or without faults succeeds. */
  method Succeeds(faulty: bool) returns (ok: bool)
    ensures !faulty ==> ok
  {
    ok := *;
    ok := ok || !faulty;
  }
}
