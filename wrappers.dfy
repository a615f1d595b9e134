/** The optional-value type shared by every module: `None` stands for SQL
    NULL, JavaScript `null`/`undefined`, or a property that is absent. */
module Wrappers {

  datatype Option<+T> = None | Some(value: T)
}
