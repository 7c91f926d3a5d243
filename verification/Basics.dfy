/**
 Types that several models share.
 */
module Basics {

  datatype Option<T> = None | Some(value: T)

  type Byte = b: nat | b < 256 witness 0

  type Bytes = seq<Byte>
}
