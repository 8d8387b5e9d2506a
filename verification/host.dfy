/** What the helpers take from their surroundings and never look inside:
    the numeric types, the culture-dependent number formatting and
    `HtmlHelper.Encode`. */
module Host {

  /** A C# `float`, kept as its IEEE 754 binary32 bit pattern. The model
      never computes with it; it is only ever handed to the formatter. */
  datatype Single = Single(bits: bv32)

  /** A C# `double`, kept as its IEEE 754 binary64 bit pattern. */
  datatype Double = Double(bits: bv64)

  /** The services the helpers call but whose code is not part of the model:
      `float.ToString()`, `double.ToString()` (as used by `string.Format`)
      under the current culture, and `HtmlHelper.Encode`. Each is an arbitrary
      function, so every property proved holds whatever they return. */
  datatype Env = Env(
    formatSingle: Single -> string,
    formatDouble: Double -> string,
    encode: string -> string)
}
