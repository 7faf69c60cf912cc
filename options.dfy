/** The optional value used for JavaScript's `null` in the page state and
    for "no request issued" in the handlers. */
module Options {

  datatype Option<T> = None | Some(value: T)
}
