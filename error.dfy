/** The error type of the colour layer (src/color/error.rs). */
module ColorError {
  import opened Common

  /**
   * Only `InvalidHex` is ever produced by the modelled code; the other
   * variants are declared by the source but never constructed.
   */
  datatype ColorConversionError =
    | InvalidHex(message: string)
    | InvalidRgb(message: string)
    | InvalidAnsiValue(value: u8)
    | UnknownFormat(message: string)
}
