/** Outcome datatypes shared by every component: the source's exceptions become `Err`. */
module Results {
  datatype Option<+T> = None | Some(value: T)

  datatype Result<+T, +E> = Ok(value: T) | Err(error: E)
}
