/** Data types that several of the models share. */
module Common {
  type byte = x: int | 0 <= x < 256

  datatype Option<+T> = None | Some(value: T)

  datatype Result<+T, +E> = Ok(value: T) | Err(error: E)

  datatype Poll<+T> = Pending | Ready(result: T)

  function Min(a: nat, b: nat): nat {
    if a <= b then a else b
  }
}
