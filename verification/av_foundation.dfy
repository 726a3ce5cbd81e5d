/** The slice of AVFoundation and Core Graphics that the iOS editor relies
    on, with exact arithmetic: `CGFloat` and `CMTime` become `real` seconds
    or points, and rotations are restricted to whole quarter turns so that
    cosine and sine are exactly 0 or ±1. */
module AVFoundation {

  /** `AVAssetExportSession.Status` */
  datatype ExportSessionStatus = Unknown | Waiting | Exporting | Completed | Failed | Cancelled

  datatype Size = Size(width: real, height: real)
  datatype Point = Point(x: real, y: real)

  /** `CGAffineTransform`: a point (x, y) goes to
      (a*x + c*y + tx, b*x + d*y + ty). */
  datatype Affine = Affine(a: real, b: real, c: real, d: real, tx: real, ty: real)

  function Apply(t: Affine, p: Point): Point
  {
    Point(t.a * p.x + t.c * p.y + t.tx, t.b * p.x + t.d * p.y + t.ty)
  }

  /** `CGSize.applying(_:)`: only the linear part acts on a size. */
  function ApplyToSize(s: Size, t: Affine): (r: Size)
    ensures Point(r.width, r.height) == Apply(t.(tx := 0.0, ty := 0.0), Point(s.width, s.height))
  {
    Size(t.a * s.width + t.c * s.height, t.b * s.width + t.d * s.height)
  }

  /** `CGAffineTransform(scaleX:y:)` */
  function Scale(sx: real, sy: real): Affine
  {
    Affine(sx, 0.0, 0.0, sy, 0.0, 0.0)
  }

  lemma ScaleMaps(sx: real, sy: real, p: Point)
    ensures Apply(Scale(sx, sy), p) == Point(sx * p.x, sy * p.y)
  {
  }

  /** `t.translatedBy(x:y:)`: translate first, then apply `t`. */
  function TranslatedBy(t: Affine, x: real, y: real): Affine
  {
    Affine(t.a, t.b, t.c, t.d, t.a * x + t.c * y + t.tx, t.b * x + t.d * y + t.ty)
  }

  lemma TranslatedByMaps(t: Affine, x: real, y: real, p: Point)
    ensures Apply(TranslatedBy(t, x, y), p) == Apply(t, Point(p.x + x, p.y + y))
  {
    var u := TranslatedBy(t, x, y);
    var q := Point(p.x + x, p.y + y);
    var lhs := Apply(u, p);
    var rhs := Apply(t, q);
    assert lhs.x == t.a * p.x + t.c * p.y + (t.a * x + t.c * y + t.tx);
    assert lhs.y == t.b * p.x + t.d * p.y + (t.b * x + t.d * y + t.ty);
    assert rhs.x == t.a * q.x + t.c * q.y + t.tx;
    assert rhs.y == t.b * q.x + t.d * q.y + t.ty;
    Distributes(t.a, p.x, x);
    Distributes(t.c, p.y, y);
    Distributes(t.b, p.x, x);
    Distributes(t.d, p.y, y);
    assert lhs.x == rhs.x && lhs.y == rhs.y;
  }

  lemma Distributes(k: real, u: real, v: real)
    ensures k * (u + v) == k * u + k * v
  {
  }

  /** Rotation angles that are whole quarter turns, counter-clockwise in
      the mathematical sense (y up): 0, +π/2, −π/2, π. */
  datatype QuarterTurn = NoTurn | PlusHalfPi | MinusHalfPi | Pi

  function Cos(q: QuarterTurn): real
  {
    match q
    case NoTurn => 1.0
    case PlusHalfPi => 0.0
    case MinusHalfPi => 0.0
    case Pi => -1.0
  }

  function Sin(q: QuarterTurn): real
  {
    match q
    case NoTurn => 0.0
    case PlusHalfPi => 1.0
    case MinusHalfPi => -1.0
    case Pi => 0.0
  }

  /** The rotation itself, as `CGAffineTransform(rotationAngle:)` applies it. */
  function Rotate(q: QuarterTurn, p: Point): Point
  {
    match q
    case NoTurn => p
    case PlusHalfPi => Point(-p.y, p.x)
    case MinusHalfPi => Point(p.y, -p.x)
    case Pi => Point(-p.x, -p.y)
  }

  lemma RotateByCosSin(q: QuarterTurn, p: Point)
    ensures Rotate(q, p) == Point(Cos(q) * p.x - Sin(q) * p.y, Sin(q) * p.x + Cos(q) * p.y)
  {
  }

  /** `t.rotated(by:)`: rotate first, then apply `t`. */
  function RotatedBy(t: Affine, q: QuarterTurn): Affine
  {
    match q
    case NoTurn => t
    case PlusHalfPi => Affine(t.c, t.d, -t.a, -t.b, t.tx, t.ty)
    case MinusHalfPi => Affine(-t.c, -t.d, t.a, t.b, t.tx, t.ty)
    case Pi => Affine(-t.a, -t.b, -t.c, -t.d, t.tx, t.ty)
  }

  lemma RotatedByMaps(t: Affine, q: QuarterTurn, p: Point)
    ensures Apply(RotatedBy(t, q), p) == Apply(t, Rotate(q, p))
  {
    match q
    case NoTurn =>
    case PlusHalfPi => PlusHalfPiMaps(t, p);
    case MinusHalfPi => MinusHalfPiMaps(t, p);
    case Pi => PiMaps(t, p);
  }

  lemma PlusHalfPiMaps(t: Affine, p: Point)
    ensures Apply(RotatedBy(t, PlusHalfPi), p) == Apply(t, Point(-p.y, p.x))
  {
    var lhs := Apply(Affine(t.c, t.d, -t.a, -t.b, t.tx, t.ty), p);
    var rhs := Apply(t, Point(-p.y, p.x));
    Negates(t.a, p.y);
    Negates(t.b, p.y);
    assert lhs.x == rhs.x;
    assert lhs.y == rhs.y;
  }

  lemma MinusHalfPiMaps(t: Affine, p: Point)
    ensures Apply(RotatedBy(t, MinusHalfPi), p) == Apply(t, Point(p.y, -p.x))
  {
    var lhs := Apply(Affine(-t.c, -t.d, t.a, t.b, t.tx, t.ty), p);
    var rhs := Apply(t, Point(p.y, -p.x));
    Negates(t.c, p.x);
    Negates(t.d, p.x);
    assert lhs.x == rhs.x;
    assert lhs.y == rhs.y;
  }

  lemma PiMaps(t: Affine, p: Point)
    ensures Apply(RotatedBy(t, Pi), p) == Apply(t, Point(-p.x, -p.y))
  {
    var lhs := Apply(Affine(-t.a, -t.b, -t.c, -t.d, t.tx, t.ty), p);
    var rhs := Apply(t, Point(-p.x, -p.y));
    Negates(t.a, p.x);
    Negates(t.b, p.x);
    Negates(t.c, p.y);
    Negates(t.d, p.y);
    assert lhs.x == rhs.x;
    assert lhs.y == rhs.y;
  }

  lemma Negates(k: real, u: real)
    ensures (-k) * u == -(k * u) && k * (-u) == -(k * u)
  {
  }
}
