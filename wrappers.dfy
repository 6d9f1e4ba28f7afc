/** Optional values. `None` stands for the dataframe library's missing value (NaN for numbers
    and strings, NaT for timestamps). */
module Wrappers {

  datatype Option<+T> = None | Some(value: T)

}
