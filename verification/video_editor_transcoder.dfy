/** VideoEditor.java: the older Android editor built on the Transcoder
    library.

    Modelled: the zero-duration check, the clip window, the choice of video
    strategy, and the thumbnail frame time and rescale.  The transcoder is
    opaque; its listener is the caller's, passed through unchanged. */
module VideoEditorTranscoder {
  import opened Results
  import opened JavaInts
  import opened VideoSizes
  import opened TrackFormats
  import AndroidTrimSettings
  import AndroidTranscodeSettings
  import AndroidThumbnail
  import VideoEditorLitr

  const ZERO_DURATION: string := "Input video with 0 duration"
  const MICROS_PER_UNIT: int := 1_000_000

  /** The `ClipDataSource` window in microseconds. */
  datatype ClipRange = ClipRange(startUs: int, endUs: int)

  /** The clip window: the trim bounds scaled by 10^6 (so read as seconds),
      with an `endsAt` of 0 meaning the full duration and any other end
      clamped to the duration; a zero-duration source is rejected first. */
  function Clip(durationUs: Int64, t: AndroidTrimSettings.TrimSettings): (r: Result<ClipRange>)
    ensures r.Err? <==> durationUs == 0
    ensures r.Err? ==> r.message == ZERO_DURATION
    ensures r.Ok? ==> r.value.startUs == t.startsAt * MICROS_PER_UNIT
    ensures r.Ok? ==> r.value.endUs <= durationUs
    ensures r.Ok? && t.endsAt == 0 ==> r.value.endUs == durationUs
    ensures r.Ok? && t.endsAt != 0 ==>
              r.value.endUs <= t.endsAt * MICROS_PER_UNIT
              && (r.value.endUs == durationUs || r.value.endUs == t.endsAt * MICROS_PER_UNIT)
  {
    if durationUs == 0 then Err(ZERO_DURATION)
    else
      var startsAtUs := t.startsAt * 1000 * 1000;
      var endsAtUs := if t.endsAt == 0 then durationUs else Min(durationUs, t.endsAt * 1000 * 1000);
      Ok(ClipRange(startsAtUs, endsAtUs))
  }

  /** `DefaultVideoStrategy.atMost(bound)` or `DefaultVideoStrategy.exact(w, h)`. */
  datatype VideoStrategy = AtMost(bound: int) | Exact(width: int, height: int)

  /** The video strategy: at most the larger requested side (1280 when none)
      when the aspect ratio is kept, otherwise exactly the requested size,
      or exactly 1280x720 when either side is unspecified. */
  function ChooseVideoStrategy(t: AndroidTranscodeSettings.TranscodeSettings): (r: VideoStrategy)
    requires AndroidTranscodeSettings.Valid(t)
    ensures r.AtMost? <==> t.keepAspectRatio
    ensures r.AtMost? ==> r.bound >= t.width && r.bound >= t.height
    ensures r.AtMost? && t.width == 0 && t.height == 0 ==> r.bound == 1280
    ensures r.AtMost? && !(t.width == 0 && t.height == 0) ==> r.bound == t.width || r.bound == t.height
    ensures !t.keepAspectRatio && t.width > 0 && t.height > 0 ==> r == Exact(t.width, t.height)
    ensures !t.keepAspectRatio && !(t.width > 0 && t.height > 0) ==> r == Exact(1280, 720)
  {
    if t.keepAspectRatio then
      var mostSize := if t.width == 0 && t.height == 0 then 1280 else Max(t.width, t.height);
      AtMost(mostSize)
    else if t.width > 0 && t.height > 0 then
      Exact(t.width, t.height)
    else
      Exact(1280, 720)
  }

  /** Both Android editors bound the output by the same size when the
      aspect ratio is kept. */
  lemma {:induction false} AtMostBoundAgreesWithLitr(t: AndroidTranscodeSettings.TranscodeSettings)
    requires AndroidTranscodeSettings.Valid(t) && t.keepAspectRatio
    ensures ChooseVideoStrategy(t) == AtMost(VideoEditorLitr.MostSize(t))
  {
  }

  /** Without aspect ratio and without a full size request the two editors
      part ways: exactly 1280x720 here, a fit within 720 in the LiTr editor. */
  lemma FallbackDiffersFromLitr()
    ensures var t := AndroidTranscodeSettings.Default().(keepAspectRatio := false);
      && ChooseVideoStrategy(t) == Exact(1280, 720)
      && VideoEditorLitr.CalculateTargetVideoSize(
           NewVideoTrackFormat(0, "video/avc").(width := 1920, height := 1080), t) == VideoSize(720, 404)
  {
  }

  /** What `edit` hands to the transcoder. */
  datatype TranscodePlan = TranscodePlan(clip: ClipRange, video: VideoStrategy)

  /** `edit`: the zero-duration check precedes building anything. */
  function Edit(durationUs: Int64,
                trim: AndroidTrimSettings.TrimSettings,
                transcode: AndroidTranscodeSettings.TranscodeSettings): (r: Result<TranscodePlan>)
    requires AndroidTranscodeSettings.Valid(transcode)
    ensures r.Err? <==> durationUs == 0
    ensures r.Err? ==> r.message == ZERO_DURATION
    ensures r.Ok? ==> r.value.clip.startUs == trim.startsAt * MICROS_PER_UNIT
                      && r.value.video == ChooseVideoStrategy(transcode)
    ensures r.Ok? && trim.endsAt == 0 ==> r.value.clip.endUs == durationUs
    ensures r.Ok? && trim.endsAt != 0 ==> r.value.clip.endUs == Min(durationUs, trim.endsAt * MICROS_PER_UNIT)
  {
    var clip :- Clip(durationUs, trim);
    Ok(TranscodePlan(clip, ChooseVideoStrategy(transcode)))
  }

  // ---------------------------------------------------------------------
  // thumbnail

  /** Two `int` values that agree modulo 2^32 are equal. */
  lemma Int32Congruent(a: Int32, b: Int32)
    requires (a - b) % TWO_32 == 0
    ensures a == b
  {
  }

  lemma MultipleOfModulus(q: int)
    ensures (q * TWO_32) % TWO_32 == 0
  {
  }

  /** A number divisible by 2^32 is a multiple of it. */
  lemma QuotientOfMultiple(a: int) returns (q: int)
    requires a % TWO_32 == 0
    ensures a == q * TWO_32
  {
    q := a / TWO_32;
  }

  lemma MulDistributes(a: int, b: int, m: int)
    ensures (a + b) * m == a * m + b * m
  {
  }

  lemma MulCommutesWithModulus(q: int, m: int)
    ensures (q * TWO_32) * m == (q * m) * TWO_32
  {
  }

  /** Two residues of products that agree modulo 2^32 coincide when
      both are `int` values. */
  lemma CongruentProducts(x: int, w: int, m: int, r: Int32, v: Int32)
    requires (x - w) % TWO_32 == 0
    requires (w * m - r) % TWO_32 == 0
    requires (x * m - v) % TWO_32 == 0
    ensures r == v
  {
    var q1 := QuotientOfMultiple(x - w);
    var q2 := QuotientOfMultiple(w * m - r);
    var q3 := QuotientOfMultiple(x * m - v);
    MulDistributes(w, q1 * TWO_32, m);
    MulCommutesWithModulus(q1, m);
    var q := q3 - q1 * m - q2;
    assert r - v == q * TWO_32;
    MultipleOfModulus(q);
    Int32Congruent(r, v);
  }

  /** Wrapping an operand before a product does not change the wrapped
      product. */
  lemma WrapBeforeProduct(x: int, m: int)
    ensures Wrap32(Wrap32(x) * m) == Wrap32(x * m)
  {
    CongruentProducts(x, Wrap32(x), m, Wrap32(Wrap32(x) * m), Wrap32(x * m));
  }

  /** `at * 1000 * 1000` as written: both products are `int` products, so
      the result wraps modulo 2^32 before it is widened to `long`. */
  function FrameTimeUsAsWritten(at: Int32): (us: Int32)
    ensures us == Wrap32(at * MICROS_PER_UNIT)
  {
    WrapBeforeProduct(at * 1000, 1000);
    Wrap32(Wrap32(at * 1000) * 1000)
  }

  /** The frame time is right exactly for |at| <= 2147 seconds. */
  lemma FrameTimeExactIffSmall(at: Int32)
    ensures FrameTimeUsAsWritten(at) == at * MICROS_PER_UNIT <==> -2147 <= at <= 2147
  {
    if -2147 <= at <= 2147 {
      assert INT_MIN <= at * MICROS_PER_UNIT <= INT_MAX;
    } else if at > 2147 {
      assert at * MICROS_PER_UNIT > INT_MAX;
    } else {
      assert at * MICROS_PER_UNIT < INT_MIN;
    }
  }

  /** At 2148 seconds the frame time wraps to a negative value. */
  lemma FrameTimeWrapsAt2148()
    ensures FrameTimeUsAsWritten(2148) == -2_146_967_296
    ensures FrameTimeUsAsWritten(2148) != VideoEditorLitr.FrameTimeUs(2148)
  {
  }

  datatype Thumbnail = Thumbnail(frameTimeUs: Int64, image: AndroidThumbnail.Frame, quality: int)

  /** `thumbnail`: the frame fetched at the frame time the `int` product
      gives (`FrameTimeUsAsWritten`, widened to `long` only afterwards),
      rescaled by the shared rule, compressed at JPEG quality 80.  A null
      bitmap (`None`) throws when first used. */
  function MakeThumbnail(frame: Option<AndroidThumbnail.Frame>, at: Int32,
                         width: Int32, height: Int32): (r: Result<Thumbnail>)
    ensures frame.None? ==> r.Err?
    ensures r.Ok? ==> r.value.frameTimeUs == Wrap32(at * MICROS_PER_UNIT) && r.value.quality == 80
    ensures frame.Some? && !(width > 0 || height > 0) ==> r.Ok? && r.value.image == frame.value
    ensures frame.Some? ==>
              (r.Ok? <==> AndroidThumbnail.Resize(frame.value, width, height).Ok?)
              && (r.Ok? ==> r.value.image == AndroidThumbnail.Resize(frame.value, width, height).value)
  {
    match frame
    case None => Err("NullPointerException")
    case Some(f) =>
      var image :- AndroidThumbnail.Resize(f, width, height);
      Ok(Thumbnail(FrameTimeUsAsWritten(at), image, AndroidThumbnail.JPEG_QUALITY))
  }

  /** Both back ends ask the retriever (`frameAt`, the frame it returns for
      a time in µs) for a frame and rescale it by the same rule.  They ask
      for the same time, and so produce the same thumbnail, when `at` is
      within ±2147 seconds; outside that range the times differ. */
  lemma ThumbnailAgreesWithLitrIffSmall(frameAt: int -> Option<AndroidThumbnail.Frame>, at: Int32,
                                        width: Int32, height: Int32)
    ensures (FrameTimeUsAsWritten(at) == VideoEditorLitr.FrameTimeUs(at)) <==> -2147 <= at <= 2147
    ensures -2147 <= at <= 2147 ==>
      var mine := MakeThumbnail(frameAt(FrameTimeUsAsWritten(at)), at, width, height);
      var litr := VideoEditorLitr.MakeThumbnail(frameAt(VideoEditorLitr.FrameTimeUs(at)), at, width, height);
      && (mine.Ok? <==> litr.Ok?)
      && (mine.Ok? ==> mine.value.image == litr.value.image && mine.value.frameTimeUs == litr.value.frameTimeUs)
  {
    FrameTimeExactIffSmall(at);
  }

  /** The two Android back ends read the same trim settings in different
      units: this one as seconds, LiTr (`VideoEditorLitr.SourceMediaRange`)
      as milliseconds, so every bound here is 1000 times LiTr's, and this
      one ends at the media duration where LiTr leaves the end open. */
  lemma TrimUnitsDifferFromLitr(durationUs: Int64, t: AndroidTrimSettings.TrimSettings)
    requires durationUs != 0
    ensures var litr := VideoEditorLitr.SourceMediaRange(t);
      var clip := Clip(durationUs, t).value;
      && clip.startUs == 1000 * litr.startUs
      && (t.endsAt == 0 ==> litr.endUs == LONG_MAX && clip.endUs == durationUs)
      && (t.endsAt != 0 ==> clip.endUs == Min(durationUs, 1000 * litr.endUs))
  {
    var litr := VideoEditorLitr.SourceMediaRange(t);
    assert litr.startUs == t.startsAt * 1000;
    assert t.endsAt != 0 ==> litr.endUs == t.endsAt * 1000;
  }
}
