/** An optional value: the model of `tl::optional`. */
module Maybe {
  datatype Option<+T> = None | Some(value: T)
}
