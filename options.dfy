/** An optional value, the model of a null pointer or an empty std::optional. */
module Options {

  datatype Option<+T> = None | Some(value: T)
}
