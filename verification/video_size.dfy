/** dto/VideoSize.java: a plain width/height pair and its `toString`. */
module VideoSizes {
  import opened Results
  import opened JavaInts
  import Decimal

  /** Both fields are Java `int`s; the constructor validates nothing, so odd,
      zero and negative values are all representable. */
  datatype VideoSize = VideoSize(width: Int32, height: Int32)

  const PREFIX: string := "VideoSize{width="
  const SEPARATOR: string := ", height="
  const SUFFIX: string := "}"

  /** `new VideoSize(width, height)`. */
  function NewVideoSize(width: Int32, height: Int32): (v: VideoSize)
    ensures v.width == width && v.height == height
  {
    VideoSize(width, height)
  }

  /** `VideoSize.toString()`. */
  function ToString(v: VideoSize): (s: string)
    ensures |s| > |PREFIX| + |SUFFIX|
    ensures s[..|PREFIX|] == PREFIX && s[|s| - 1] == '}'
  {
    PREFIX + Decimal.Show(v.width) + SEPARATOR + Decimal.Show(v.height) + SUFFIX
  }

  /** Position of the first `c` in `s`, if any. */
  function FirstIndexOf(s: string, c: char): (r: Option<nat>)
    ensures r.Some? ==> r.value < |s| && s[r.value] == c
                        && forall i :: 0 <= i < r.value ==> s[i] != c
    ensures r.None? ==> forall i :: 0 <= i < |s| ==> s[i] != c
  {
    if |s| == 0 then None
    else if s[0] == c then Some(0)
    else match FirstIndexOf(s[1..], c)
      case None => None
      case Some(k) => Some(k + 1)
  }

  function ParseInt32(s: string): Option<Int32>
  {
    match Decimal.ParseInteger(s)
    case Some(n) => if INT_MIN <= n <= INT_MAX then Some(n) else None
    case None => None
  }

  /** Reads back the text `ToString` renders; the inverse used to state what
      the rendering preserves. */
  function ParseVideoSize(s: string): Option<VideoSize>
  {
    if |s| < |PREFIX| + |SUFFIX| || s[..|PREFIX|] != PREFIX || s[|s| - 1] != '}' then None
    else
      var body := s[|PREFIX|..|s| - 1];
      match FirstIndexOf(body, ',')
      case None => None
      case Some(k) =>
        var rest := body[k..];
        if |rest| < |SEPARATOR| || rest[..|SEPARATOR|] != SEPARATOR then None
        else
          match (ParseInt32(body[..k]), ParseInt32(rest[|SEPARATOR|..]))
          case (Some(w), Some(h)) => Some(VideoSize(w, h))
          case _ => None
  }

  /** The first comma after a comma-free prefix is the one that follows it. */
  lemma {:induction false} FirstIndexAfterCommaFree(a: string, b: string, k: nat)
    requires forall i :: 0 <= i < |a| ==> a[i] != ','
    requires FirstIndexOf(b, ',') == Some(k)
    ensures FirstIndexOf(a + b, ',') == Some(|a| + k)
    decreases |a|
  {
    if |a| > 0 {
      assert (a + b)[1..] == a[1..] + b;
      FirstIndexAfterCommaFree(a[1..], b, k);
    } else {
      assert a + b == b;
    }
  }

  /** `toString` loses nothing: both fields can be read back from the text. */
  lemma ToStringRoundTrip(v: VideoSize)
    ensures ParseVideoSize(ToString(v)) == Some(v)
  {
    var w := Decimal.Show(v.width);
    var h := Decimal.Show(v.height);
    var s := ToString(v);
    var body := s[|PREFIX|..|s| - 1];
    assert body == w + (SEPARATOR + h);
    assert FirstIndexOf(SEPARATOR + h, ',') == Some(0);
    FirstIndexAfterCommaFree(w, SEPARATOR + h, 0);
    assert FirstIndexOf(body, ',') == Some(|w|);
    assert body[..|w|] == w;
    var rest := body[|w|..];
    assert rest == SEPARATOR + h;
    assert rest[|SEPARATOR|..] == h;
    Decimal.ShowRoundTrip(v.width);
    Decimal.ShowRoundTrip(v.height);
  }

  /** The rendering of the examples a reader would expect. */
  lemma ToStringExample()
    ensures ToString(VideoSize(1280, 720)) == "VideoSize{width=1280, height=720}"
  {
    assert Decimal.NatDigits(1280) == "1280";
    assert Decimal.NatDigits(720) == "720";
  }
}
