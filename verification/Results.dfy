/** Types and a helper shared by the models. */
module Results {

  datatype Option<T> = None | Some(value: T)

  /** A remote call that may fail before or after taking effect. */
  datatype Call = Done | Failed(applied: bool)

  type byte = b: int | 0 <= b < 256

  function Min(a: int, b: int): int {
    if a <= b then a else b
  }
}
