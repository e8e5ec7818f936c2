/** Option stands for a value that may be missing: an edge table entry that is
    infinite, a line that could not be chosen, a dictionary lookup that fails. */
module Wrappers {
  datatype Option<+T> = None | Some(value: T)
}
