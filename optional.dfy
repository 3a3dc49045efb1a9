/** The value-or-absence type used wherever the source returns `null` or leaves
    an optional field `undefined`. */
module Optional {

  datatype Option<+T> = None | Some(value: T)
}
