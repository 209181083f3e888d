/** Option type shared by the modules of this model: `None` stands for Kotlin's `null`. */
module Wrappers {
  datatype Option<+T> = None | Some(value: T)
}
