/** An optional value: a SQL parameter or JSON field that may be absent,
    a group-by column that may not be part of the key, a `.get()` that may
    find no row. */
module Options {

  datatype Option<+T> = None | Some(value: T)
}
