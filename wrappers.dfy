/** The "no element" signal of `getNext`, which the source spells `undefined`. */
module Wrappers {

  datatype Option<+T> = None | Some(value: T)
}
