/** The thumbnail rescaling step that VideoEditorLitr.java and
    VideoEditor.java share word for word: after the frame is fetched, it is
    rescaled only when a width or a height was requested, and then the
    requested HEIGHT alone decides the new size.

    The source computes in `double`; here the quotient is exact and
    `Double.intValue()` is truncation toward zero, saturating at the `int`
    bounds. */
module AndroidThumbnail {
  import opened Results
  import opened JavaInts

  const JPEG_QUALITY: int := 80

  /** A decoded `Bitmap`; Android bitmaps always have positive dimensions. */
  type Dimension = x: int | 0 < x <= 0x7fff_ffff witness 1
  datatype Frame = Frame(width: Dimension, height: Dimension)

  /** `Double.valueOf(x).intValue()` for a finite `x`. */
  function TruncToInt32(x: real): (r: Int32)
    ensures x >= 0.0 ==> 0 <= r && r as real <= x
    ensures x <= 0.0 ==> r <= 0
    ensures x >= 0.0 && x < INT_MAX as real ==> x < r as real + 1.0
    ensures INT_MIN as real < x < 0.0 ==> x <= r as real < x + 1.0
    ensures x >= INT_MAX as real ==> r == INT_MAX
    ensures x <= INT_MIN as real ==> r == INT_MIN
  {
    if x >= 0.0 then (if x.Floor > INT_MAX then INT_MAX else x.Floor)
    else
      var t := -((-x).Floor);
      if t < INT_MIN then INT_MIN else t
  }

  /** `aspectRatio`: the frame's width over its height. */
  function Aspect(frame: Frame): (a: real)
    ensures a > 0.0
  {
    frame.width as real / frame.height as real
  }

  /** `scaleWidth` and `scaleHeight`: the requested height times the frame's
      aspect ratio, and that width back through the ratio. */
  function ScaledSize(frame: Frame, height: Int32): (r: (Int32, Int32))
    ensures height >= 0 ==> 0 <= r.0 && r.0 as real <= height as real * Aspect(frame)
    ensures height >= 0 ==> 0 <= r.1 <= height
    ensures height <= 0 ==> r.0 <= 0
  {
    var aspectRatio := Aspect(frame);
    ScaleSign(aspectRatio, height);
    var scaleWidth := TruncToInt32(height as real * aspectRatio);
    var scaleHeight := TruncToInt32(scaleWidth as real / aspectRatio);
    if height >= 0 then
      HeightRoundTripBound(aspectRatio, height, scaleWidth);
      (scaleWidth, scaleHeight)
    else (scaleWidth, scaleHeight)
  }

  lemma ScaleSign(a: real, height: int)
    requires a > 0.0
    ensures height >= 0 ==> height as real * a >= 0.0
    ensures height <= 0 ==> height as real * a <= 0.0
  {
  }

  /** Going to the width and back never exceeds the requested height. */
  lemma HeightRoundTripBound(a: real, height: Int32, scaleWidth: int)
    requires a > 0.0 && height >= 0
    requires 0 <= scaleWidth
    requires scaleWidth as real <= height as real * a
    ensures 0.0 <= height as real * a
    ensures 0.0 <= scaleWidth as real / a <= height as real
  {
    var q := scaleWidth as real / a;
    assert q * a == scaleWidth as real;
  }

  /** The guarded rescale: untouched unless `width > 0 || height > 0`;
      otherwise `Bitmap.createScaledBitmap`, which throws
      `IllegalArgumentException` unless both new dimensions are positive. */
  function Resize(frame: Frame, width: Int32, height: Int32): (r: Result<Frame>)
    ensures !(width > 0 || height > 0) ==> r == Ok(frame)
    ensures (width > 0 || height > 0) && height <= 0 ==> r.Err?
    ensures (width > 0 || height > 0) && r.Ok? ==>
              0 < r.value.height <= height
              && r.value.width as real <= height as real * Aspect(frame)
  {
    if width > 0 || height > 0 then
      var (scaleWidth, scaleHeight) := ScaledSize(frame, height);
      if scaleWidth > 0 && scaleHeight > 0 then Ok(Frame(scaleWidth, scaleHeight))
      else Err("IllegalArgumentException")
    else Ok(frame)
  }

  /** The requested width matters only through the guard. */
  lemma {:induction false} WidthOnlyGuards(frame: Frame, w1: Int32, w2: Int32, height: Int32)
    requires (w1 > 0 || height > 0) == (w2 > 0 || height > 0)
    ensures Resize(frame, w1, height) == Resize(frame, w2, height)
  {
  }

  /** A request with only a width set asks for a 0-by-0 bitmap and throws. */
  lemma WidthOnlyRequestFails(frame: Frame, width: Int32)
    requires width > 0
    ensures Resize(frame, width, 0).Err?
  {
  }
}
