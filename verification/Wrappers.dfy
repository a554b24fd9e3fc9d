/** Small result types shared by all components. */
module Wrappers {

  datatype Option<+T> = None | Some(value: T)

  /** A byte of card, certificate or protocol data. */
  type Byte = b: int | 0 <= b < 256 witness 0
}
