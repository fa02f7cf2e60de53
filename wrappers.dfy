/** The conventional optional value: the queue's `None` sentinel and the decoder's failure. */
module Wrappers {

  datatype Option<+T> = None | Some(value: T)

}
