/** The optional value the editor uses for "no point selected" (`null` in the source)
    and for the result of the proximity scan. */
module Wrappers {

  datatype Option<+T> = None | Some(value: T)

}
