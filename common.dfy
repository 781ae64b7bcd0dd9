/** Values shared by the ingestion path and the plotting data: optional
    values, IEEE single-precision numbers as the parser sees them, and the
    outcome of the platform's text-to-float conversion. */
module Common {

  datatype Option<+T> = None | Some(value: T)

  /** A 32-bit float as far as this model needs it: a finite value, or
      not-a-number. Infinities never arise in the modelled code, because
      overflow is reported by the conversion and replaced by a sentinel. */
  datatype Single = Num(value: real) | NaN

  /** The largest finite single-precision value, (2 - 2^-23) * 2^127. */
  const MaxValue: real := 340282346638528859811704183484516925440.0

  /** The most negative finite single-precision value. */
  const MinValue: real := -MaxValue

  /** What the platform's float conversion does with one piece of text:
      returns a value (which may be NaN, for the text "NaN"), or throws a
      format exception, or throws an overflow exception. */
  datatype FloatText = Value(v: Single) | Malformed | TooLarge

  /** The float conversion itself is not modelled: it is a parameter. */
  type FloatParser = string -> FloatText
}
