/** The optional value used wherever the source has `undefined`, a missing
    record or an empty input field. */
module Optional {

  datatype Option<+T> = None | Some(value: T)
}
