/** The optional value used wherever the programs have a "maybe" result:
    a parse that can fail, a file that may be missing, a run that may crash. */
module Wrappers {

  datatype Option<+T> = None | Some(value: T)
}
