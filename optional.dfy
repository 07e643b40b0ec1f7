/** The optional value the model uses wherever the source passes `None` or a value. */
module Optional {

  datatype Option<+T> = None | Some(value: T)

}
