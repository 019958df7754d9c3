/** Results of calls that may fail, shared by all modules. */
module Outcomes {

  datatype Option<+T> = None | Some(value: T)

  datatype Result<+T> = Ok(value: T) | Err

  /** What a write to a remote store did. A write whose acknowledgement is lost
      may or may not have taken effect. */
  datatype Write = Acked | Lost | AppliedUnacked {
    predicate Applied() { !Lost? }
  }
}
