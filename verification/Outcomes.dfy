/** The two result shapes every store operation answers with. */
module Outcomes {

  datatype Option<+T> = None | Some(value: T)

  /** `Err` stands for any error the source surfaces; its wording is not modelled. */
  datatype Result<+T> = Ok(value: T) | Err
}
