/** The optional value used for an empty grid slot and for "no offspring":
    the model's stand-in for a null organism pointer. */
module Wrappers {

  datatype Option<+T> = None | Some(value: T)

}
