/** A value that may be missing: the model's stand-in for JavaScript's
    `undefined` and `NaN`. */
module Optional {

  datatype Option<+T> = None | Some(value: T)
}
