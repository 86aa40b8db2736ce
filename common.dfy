/** Value types shared by the colour-conversion and formatting layers. */
module Common {

  /** Rust's `u8`: the type of every colour channel and every ANSI-256 code. */
  type u8 = x: int | 0 <= x < 256

  /** Rust's `[u8; 3]` colour triple, in the order red, green, blue. */
  datatype Rgb = Rgb(r: u8, g: u8, b: u8)

  /** Rust's `Result<T, E>`; `?` is modelled by an explicit `match`. */
  datatype Result<+T, +E> = Ok(value: T) | Err(error: E)

  /** Rust's `Option<T>`. */
  datatype Option<+T> = None | Some(value: T)
}
