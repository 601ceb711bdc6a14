/** An optional value: the model's stand-in for a C# `null` or an absent
    result. */
module Options {
  datatype Option<T> = None | Some(value: T)
}
