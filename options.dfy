/** The usual optional-value wrapper, used for the error paths of the component. */
module Options {

  datatype Option<T> = None | Some(value: T)
}
