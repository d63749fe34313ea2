/** The result of a data-frame operation that can raise: `None` stands for the
    raised error, `Some` for the value it returns. */
module Options {

  datatype Option<T> = None | Some(value: T)
}
