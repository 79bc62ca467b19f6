/** An optional value: a DOM lookup that may find nothing, an attribute that
    may be absent, a style that may never have been written. */
module Options {

  datatype Option<+T> = None | Some(value: T)
}
