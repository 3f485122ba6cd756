/** The optional value used across the model: a selection that may be empty
    (`null` in the games), or a result that the random draws may not have
    been long enough to produce. */
module Wrappers {

  datatype Option<+T> = None | Some(value: T)

}
