/** Failure-carrying values that stand in for the Python exceptions of the pipeline,
    and the byte strings that flow from the network to the disk. */
module Wrappers {

  datatype Option<+T> = None | Some(value: T)

  datatype Result<+T, +E> = Ok(value: T) | Err(error: E)

  type Bytes = seq<bv8>
}
