/** Shared value types: optional values, error results and RGB colours. */
module Common {

  datatype Option<+T> = None | Some(value: T)

  /** Python's exceptions, as far as the modelled code raises them. */
  datatype Error = ValueError | TypeError

  datatype Result<+T> = Ok(value: T) | Err(error: Error)

  /** An integer cell or chunk coordinate `(col, row)`. */
  type Coord = (int, int)

  /** A colour channel as pygame accepts it. */
  type Channel = x: int | 0 <= x < 256

  datatype Rgb = Rgb(r: Channel, g: Channel, b: Channel)

  /** An RGBA pixel of a surface with per-pixel alpha. */
  datatype Rgba = Rgba(r: Channel, g: Channel, b: Channel, a: Channel)

  const Transparent := Rgba(0, 0, 0, 0)

  /** A pygame `Rect`: left, top, width and height in pixels. */
  datatype Rect = Rect(x: int, y: int, w: int, h: int)

  function Max(a: int, b: int): int { if a < b then b else a }
  function Min(a: int, b: int): int { if a < b then a else b }

  /** Python's `int(r)` on a float: rounds toward zero. */
  function Trunc(r: real): int
  {
    if r >= 0.0 then r.Floor else -((-r).Floor)
  }
}
