/** Option type used for column values that pandas represents as NaN
    (None) and for operations that raise on some inputs. */
module Wrappers {

  datatype Option<+T> = None | Some(value: T)
}
