/** The optional value used wherever the logger may have nothing (no renderer yet,
    no history, a line that does not decode). */
module Wrappers {

  datatype Option<+T> = None | Some(value: T)

}
