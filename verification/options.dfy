/** The "value or nothing" result that Python expresses with `None`. */
module Options {

  datatype Option<+T> = None | Some(value: T)
}
