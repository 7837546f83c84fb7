// Colour values and the configuration constants of the strip.

module Colors {
  /** One 8-bit colour channel. */
  type Channel = x: int | 0 <= x <= 255

  /** A colour as the strip driver takes it: red, green and blue channels. */
  datatype Color = Color(r: Channel, g: Channel, b: Channel)

  /** All channels off; the driver's packed value 0. */
  const Black: Color := Color(0, 0, 0)

  datatype Option<T> = None | Some(value: T)

  /** Number of pixels on the strip. */
  const LedCount: nat := 60

  /** Brightness ceiling of the strip. */
  const LedBrightness: int := 150
}
