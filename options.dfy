/** Nullable values of the component (`number | null`, `string | null`). */
module Options {
  datatype Option<T> = None | Some(value: T)
}
