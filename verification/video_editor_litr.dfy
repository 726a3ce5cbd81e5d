/** VideoEditorLitr.java: the Android editor built on the LiTr transcoder.

    Modelled: the choice of output geometry, the conversion of the trim
    window to a source media range, what `edit` hands to the transformer,
    the listener that releases the transformer, and the thumbnail frame
    time and rescale.  The transformer itself is opaque. */
module VideoEditorLitr {
  import opened Results
  import opened JavaInts
  import opened VideoSizes
  import opened TrackFormats
  import AndroidTrimSettings
  import AndroidTranscodeSettings
  import SourceMedia
  import AndroidThumbnail

  const DEFAULT_MOST_SIZE: int := 1280
  const FALLBACK_MOST_SIZE: int := 720

  const DEFAULT_VIDEO_MIME: string := "video/avc"
  const DEFAULT_VIDEO_FRAMERATE: int := 30
  const DEFAULT_VIDEO_KEY_FRAME_INTERVAL: int := 5
  const DEFAULT_AUDIO_BITRATE: int := 128000
  const DEFAULT_AUDIO_CHANNEL_COUNT: int := 2
  const DEFAULT_AUDIO_SAMPLE_RATE: int := 44100
  const DEFAULT_AUDIO_MIME: string := "audio/mp4a-latm"

  const VIDEO_TRACK_NOT_FOUND: string := "Video track not found"

  // ---------------------------------------------------------------------
  // Output geometry

  /** The `if (x % 2 != 0) x--;` step: the even number at or just below `x`. */
  function EvenFloor(x: int): (r: int)
    ensures r % 2 == 0
    ensures r <= x < r + 2
  {
    if x % 2 != 0 then x - 1 else x
  }

  /** `(int) ((float) bound * ((float) minor / major))`, with the float
      quotient taken exactly; the cast truncates toward zero. */
  function ScaleMinor(bound: int, minor: int, major: int): (r: int)
    requires major > 0
    ensures bound >= 0 && minor >= 0 ==> 0 <= r && r * major <= bound * minor < (r + 1) * major
  {
    var p := bound * minor;
    if p >= 0 then
      DivBounds(p, major);
      p / major
    else -((-p) / major)
  }

  lemma DivBounds(p: int, m: int)
    requires p >= 0 && m > 0
    ensures 0 <= p / m
    ensures (p / m) * m <= p < (p / m + 1) * m
  {
    assert p == (p / m) * m + p % m;
  }

  lemma MulMono(a: int, b: int, c: int)
    requires a <= b && c >= 0
    ensures a * c <= b * c
  {
    assert b * c - a * c == (b - a) * c;
  }

  lemma MulStrict(a: int, b: int, c: int)
    requires a < b && c > 0
    ensures a * c < b * c
  {
    assert b * c - a * c == (b - a) * c;
  }

  /** What `calculateVideoSizeAtMost` promises: a source whose larger side
      fits the bound is kept as is; otherwise the larger side (width on a
      tie) becomes the bound rounded down to even, both sides are even and
      within the bound, and a non-negative minor side keeps the source's
      proportion up to the even rounding. */
  ghost predicate FitsWithinBound(width: Int32, height: Int32, bound: int, r: VideoSize)
  {
    && (Max(width, height) <= bound ==> r == VideoSize(width, height))
    && (Max(width, height) > bound ==>
          && r.width % 2 == 0 && r.height % 2 == 0
          && r.width <= bound && r.height <= bound
          && (width >= height ==> r.width == EvenFloor(bound))
          && (width < height ==> r.height == EvenFloor(bound))
          && (width >= height && height >= 0 ==>
                0 <= r.height && r.height * width <= bound * height < (r.height + 2) * width)
          && (width < height && width >= 0 ==>
                0 <= r.width && r.width * height <= bound * width < (r.width + 2) * height))
  }

  /** The minor side of a downscale: `bound * minor / major` truncated, then
      rounded down to even.  It stays within the bound and, for a
      non-negative source side, keeps the source proportion up to the
      rounding. */
  function ScaledMinorSide(bound: Int32, minor: Int32, major: Int32): (r: Int32)
    requires 0 <= bound < major && minor <= major
    ensures r % 2 == 0 && r <= bound
    ensures minor >= 0 ==> 0 <= r && r * major <= bound * minor < (r + 2) * major
  {
    MinorWithinBound(bound, minor, major);
    var e := EvenFloor(ScaleMinor(bound, minor, major));
    if minor >= 0 then
      EvenKeepsProportion(bound, minor, major);
      e
    else e
  }

  lemma EvenKeepsProportion(bound: int, minor: int, major: int)
    requires 0 <= bound && 0 <= minor && 0 < major
    ensures var e := EvenFloor(ScaleMinor(bound, minor, major));
      0 <= e && e * major <= bound * minor < (e + 2) * major
  {
    var q := ScaleMinor(bound, minor, major);
    EvenBracket(q, EvenFloor(q), major, bound * minor);
  }

  lemma EvenBracket(q: int, e: int, m: int, x: int)
    requires m > 0 && 0 <= x
    requires q * m <= x < (q + 1) * m
    requires e % 2 == 0 && e <= q < e + 2
    ensures 0 <= e && e * m <= x < (e + 2) * m
  {
    assert 0 <= q by {
      if q < 0 { MulMono(q + 1, 0, m); }
    }
    MulMono(e, q, m);
    MulMono(q + 1, e + 2, m);
  }

  /** `calculateVideoSizeAtMost(track, mostSize)`. */
  function CalculateVideoSizeAtMost(width: Int32, height: Int32, mostSize: Int32): (r: VideoSize)
    requires mostSize >= 0
    ensures FitsWithinBound(width, height, mostSize, r)
  {
    if Max(width, height) <= mostSize then
      VideoSize(width, height)
    else if width >= height then
      VideoSize(EvenFloor(mostSize), ScaledMinorSide(mostSize, height, width))
    else
      VideoSize(ScaledMinorSide(mostSize, width, height), EvenFloor(mostSize))
  }

  /** The truncated minor side lies strictly above `INT_MIN` and at most at the bound. */
  lemma MinorWithinBound(bound: int, minor: Int32, major: Int32)
    requires 0 <= bound < major
    requires minor <= major
    ensures INT_MIN < ScaleMinor(bound, minor, major) <= bound
  {
    if minor >= 0 {
      NonNegativeMinorWithinBound(bound, minor, major);
    } else {
      NegativeMinorAboveMin(bound, minor, major);
    }
  }

  lemma NonNegativeMinorWithinBound(bound: int, minor: int, major: int)
    requires 0 <= bound < major && 0 <= minor <= major
    ensures 0 <= ScaleMinor(bound, minor, major) <= bound
  {
    var q := ScaleMinor(bound, minor, major);
    QuotientWithinBound(q, bound, minor, major);
  }

  /** A quotient of `bound * minor` by `major >= minor` is at most `bound`. */
  lemma QuotientWithinBound(q: int, bound: int, minor: int, major: int)
    requires 0 <= bound && 0 <= minor <= major && 0 < major
    requires q * major <= bound * minor
    ensures q <= bound
  {
    MulMono(minor, major, bound);
    assert bound * minor == minor * bound && major * bound == bound * major;
    MulCancel(q, bound, major);
  }

  lemma MulCancel(a: int, b: int, m: int)
    requires m > 0 && a * m <= b * m
    ensures a <= b
  {
    if a > b {
      MulStrict(b, a, m);
    }
  }

  lemma NegativeMinorAboveMin(bound: int, minor: int, major: int)
    requires 0 <= bound < major && INT_MIN <= minor < 0
    ensures INT_MIN < ScaleMinor(bound, minor, major) <= 0
  {
    var n := 0 - minor;
    var p := bound * n;
    NegatedProduct(bound, minor, n);
    assert ScaleMinor(bound, minor, major) == -(p / major);
    ShrunkQuotient(p, bound, n, major);
  }

  lemma NegatedProduct(bound: int, minor: int, n: int)
    requires 0 <= bound && n == 0 - minor && minor < 0
    ensures bound * minor == -(bound * n) && 0 <= bound * n
  {
  }

  /** `bound * n / major < n` when `bound < major`. */
  lemma ShrunkQuotient(p: int, bound: int, n: int, major: int)
    requires 0 <= bound < major && 0 < n && p == bound * n
    ensures 0 <= p / major < n
  {
    MulStrict(bound, major, n);
    DivBounds(p, major);
    if p / major >= n {
      MulMono(n, p / major, major);
    }
  }

  /** `mostSize` of `calculateTargetVideoSize`: the larger requested
      dimension, or 1280 when neither is requested. */
  function MostSize(t: AndroidTranscodeSettings.TranscodeSettings): (bound: Int32)
    requires AndroidTranscodeSettings.Valid(t)
    ensures bound >= t.width && bound >= t.height
    ensures t.width == 0 && t.height == 0 ==> bound == DEFAULT_MOST_SIZE
    ensures !(t.width == 0 && t.height == 0) ==> bound == t.width || bound == t.height
  {
    if t.width == 0 && t.height == 0 then 1280 else Max(t.width, t.height)
  }

  /** `calculateTargetVideoSize(track, settings)`. */
  function CalculateTargetVideoSize(track: VideoTrackFormat,
                                    t: AndroidTranscodeSettings.TranscodeSettings): (r: VideoSize)
    requires AndroidTranscodeSettings.Valid(t)
    ensures t.keepAspectRatio ==> FitsWithinBound(track.width, track.height, MostSize(t), r)
    ensures !t.keepAspectRatio && t.width > 0 && t.height > 0 ==> r == VideoSize(t.width, t.height)
    ensures !t.keepAspectRatio && !(t.width > 0 && t.height > 0) ==>
              FitsWithinBound(track.width, track.height, FALLBACK_MOST_SIZE, r)
  {
    if t.keepAspectRatio then
      CalculateVideoSizeAtMost(track.width, track.height, MostSize(t))
    else if t.width > 0 && t.height > 0 then
      VideoSize(t.width, t.height)
    else
      CalculateVideoSizeAtMost(track.width, track.height, 720)
  }

  /** Worked examples: 1920x1080 under the default bound becomes 1280x720;
      640x360 is kept; a square 1080 source under 720 becomes 720x720. */
  lemma GeometryExamples()
    ensures CalculateVideoSizeAtMost(1920, 1080, 1280) == VideoSize(1280, 720)
    ensures CalculateVideoSizeAtMost(640, 360, 1280) == VideoSize(640, 360)
    ensures CalculateVideoSizeAtMost(1080, 1080, 720) == VideoSize(720, 720)
  {
  }

  /** Without aspect ratio, a caller-given odd size passes unrounded. */
  lemma ExactSizeNotRoundedToEven()
    ensures CalculateTargetVideoSize(
              NewVideoTrackFormat(0, "video/avc").(width := 1920, height := 1080),
              AndroidTranscodeSettings.TranscodeSettings(301, 401, false)) == VideoSize(401, 301)
  {
  }

  // ---------------------------------------------------------------------
  // Trim window

  /** LiTr's `MediaRange(start, end)` in microseconds. */
  datatype MediaRange = MediaRange(startUs: int, endUs: int)

  /** The trim window in microseconds: milliseconds times 1000, and an
      `endsAt` of 0 means "to the end of the source" (`Long.MAX_VALUE`). */
  function SourceMediaRange(t: AndroidTrimSettings.TrimSettings): (r: MediaRange)
    ensures r.startUs == t.startsAt * 1000
    ensures r.endUs == LONG_MAX <==> t.endsAt == 0
    ensures t.endsAt != 0 ==> r.endUs == t.endsAt * 1000
  {
    MediaRange(t.startsAt * 1000, if t.endsAt == 0 then LONG_MAX else t.endsAt * 1000)
  }

  // ---------------------------------------------------------------------
  // edit

  /** What `edit` passes to `MediaTransformer.transform`. */
  datatype TransformRequest = TransformRequest(
    targetSize: VideoSize,
    range: MediaRange,
    videoMime: string,
    frameRate: int,
    keyFrameInterval: int,
    audioMime: string,
    audioChannelCount: int,
    audioSampleRate: int,
    audioBitrate: int)

  /** `edit`: fails with "Video track not found" before any transform when
      the source has no video track; otherwise sizes the output after the
      first video track.  The source arrives already loaded: the exception
      `new SourceMedia(...)` can raise first is the one `SourceMedia.LoadUri`
      states. */
  function Edit(source: SourceMedia.Media,
                trim: AndroidTrimSettings.TrimSettings,
                transcode: AndroidTranscodeSettings.TranscodeSettings): (r: Result<TransformRequest>)
    requires AndroidTranscodeSettings.Valid(transcode)
    ensures r.Err? <==> forall t :: t in source.tracks ==> !t.Video?
    ensures r.Err? ==> r.message == VIDEO_TRACK_NOT_FOUND
    ensures r.Ok? ==> |SourceMedia.GetVideoTracks(source.tracks)| > 0
                      && r.value.targetSize == CalculateTargetVideoSize(SourceMedia.GetVideoTracks(source.tracks)[0], transcode)
    ensures r.Ok? ==> r.value.range == SourceMediaRange(trim)
    ensures r.Ok? ==> r.value.videoMime == DEFAULT_VIDEO_MIME && r.value.frameRate == 30
                      && r.value.keyFrameInterval == 5 && r.value.audioMime == DEFAULT_AUDIO_MIME
                      && r.value.audioChannelCount == 2 && r.value.audioSampleRate == 44100
                      && r.value.audioBitrate == 128000
  {
    var videoTracks := SourceMedia.GetVideoTracks(source.tracks);
    if |videoTracks| == 0 then
      Err(VIDEO_TRACK_NOT_FOUND)
    else
      assert videoTracks[0] in videoTracks;
      Ok(TransformRequest(
        CalculateTargetVideoSize(videoTracks[0], transcode),
        SourceMediaRange(trim),
        DEFAULT_VIDEO_MIME, DEFAULT_VIDEO_FRAMERATE, DEFAULT_VIDEO_KEY_FRAME_INTERVAL,
        DEFAULT_AUDIO_MIME, DEFAULT_AUDIO_CHANNEL_COUNT, DEFAULT_AUDIO_SAMPLE_RATE,
        DEFAULT_AUDIO_BITRATE))
  }

  // ---------------------------------------------------------------------
  // The transformation listener

  datatype TransformEvent =
    | Started
    | Progress(progress: real)
    | Completed
    | Cancelled
    | Error(cause: Option<string>)
  {
    predicate IsTerminal() { Completed? || Cancelled? || Error? }
  }

  /** What the wrapping listener does: forward an event to the caller's
      listener, or release the transformer. */
  datatype ListenerAction = Forward(event: TransformEvent) | Release

  /** The caller's-listener view of an action trace. */
  function Forwarded(actions: seq<ListenerAction>): seq<TransformEvent>
  {
    if |actions| == 0 then []
    else (if actions[0].Forward? then [actions[0].event] else []) + Forwarded(actions[1..])
  }

  lemma {:induction false} ForwardedAppend(a: seq<ListenerAction>, b: seq<ListenerAction>)
    ensures Forwarded(a + b) == Forwarded(a) + Forwarded(b)
    decreases |a|
  {
    if |a| > 0 {
      assert (a + b)[1..] == a[1..] + b;
      ForwardedAppend(a[1..], b);
    } else {
      assert a + b == b;
    }
  }

  /** One callback of the listener: forward, then release after a terminal one. */
  function React(e: TransformEvent): seq<ListenerAction>
  {
    if e.IsTerminal() then [Forward(e), Release] else [Forward(e)]
  }

  /** The listener's actions for a sequence of transformer callbacks; every
      event reaches the caller's listener unchanged and in order. */
  function Relay(events: seq<TransformEvent>): (r: seq<ListenerAction>)
    ensures Forwarded(r) == events
    ensures |r| > 0 ==> r[0].Forward?
    decreases |events|
  {
    if |events| == 0 then []
    else
      var head := React(events[0]);
      var tail := Relay(events[1..]);
      ForwardedAppend(head, tail);
      assert events == [events[0]] + events[1..];
      head + tail
  }

  /** Releases sit exactly right after terminal callbacks. */
  predicate ReleasesFollowTerminals(r: seq<ListenerAction>)
  {
    forall i :: 0 <= i < |r| ==> AtPlacement(r, i)
  }

  predicate AtPlacement(r: seq<ListenerAction>, i: int)
    requires 0 <= i < |r|
  {
    && (r[i] == Release <==> 0 < i && r[i - 1].Forward? && r[i - 1].event.IsTerminal())
    && (r[i].Forward? && r[i].event.IsTerminal() ==> i + 1 < |r| && r[i + 1] == Release)
  }

  lemma ReleasesFollowTerminalsAppend(a: seq<ListenerAction>, b: seq<ListenerAction>)
    requires ReleasesFollowTerminals(a) && ReleasesFollowTerminals(b)
    ensures ReleasesFollowTerminals(a + b)
  {
    var r := a + b;
    forall i | 0 <= i < |r|
      ensures AtPlacement(r, i)
    {
      if i < |a| {
        assert AtPlacement(a, i);
        assert r[i] == a[i];
        if 0 < i { assert r[i - 1] == a[i - 1]; }
        if i + 1 < |a| { assert r[i + 1] == a[i + 1]; }
      } else {
        var k := i - |a|;
        assert AtPlacement(b, k);
        assert r[i] == b[k];
        if 0 < k {
          assert r[i - 1] == b[k - 1];
        } else if 0 < i {
          assert AtPlacement(a, |a| - 1);
          assert r[i - 1] == a[|a| - 1];
        }
        if k + 1 < |b| { assert r[i + 1] == b[k + 1]; }
      }
    }
  }

  /** The transformer is released right after each completed, cancelled or
      error callback and at no other point (never after started or progress). */
  lemma {:induction false} ReleaseExactlyAfterTerminal(events: seq<TransformEvent>)
    ensures ReleasesFollowTerminals(Relay(events))
    decreases |events|
  {
    if |events| > 0 {
      var head := React(events[0]);
      assert AtPlacement(head, 0);
      assert |head| == 2 ==> AtPlacement(head, 1);
      ReleaseExactlyAfterTerminal(events[1..]);
      ReleasesFollowTerminalsAppend(head, Relay(events[1..]));
    }
  }

  // ---------------------------------------------------------------------
  // thumbnail

  /** `(long) at * 1000 * 1000`: the frame time in microseconds, computed in
      `long` arithmetic, so it is exact for every `int` second count. */
  function FrameTimeUs(at: Int32): (us: Int64)
    ensures us == at * 1_000_000
  {
    Wrap64(Wrap64(at * 1000) * 1000)
  }

  datatype Thumbnail = Thumbnail(frameTimeUs: Int64, image: AndroidThumbnail.Frame, quality: int)

  /** `thumbnail`: the frame the retriever returns for the frame time
      (`None` for a null bitmap, whose use throws), rescaled as the shared
      rule says, and compressed at JPEG quality 80. */
  function MakeThumbnail(frame: Option<AndroidThumbnail.Frame>, at: Int32,
                         width: Int32, height: Int32): (r: Result<Thumbnail>)
    ensures frame.None? ==> r.Err?
    ensures r.Ok? ==> r.value.frameTimeUs == at * 1_000_000 && r.value.quality == 80
    ensures frame.Some? && !(width > 0 || height > 0) ==> r.Ok? && r.value.image == frame.value
    ensures frame.Some? ==>
              (r.Ok? <==> AndroidThumbnail.Resize(frame.value, width, height).Ok?)
              && (r.Ok? ==> r.value.image == AndroidThumbnail.Resize(frame.value, width, height).value)
  {
    match frame
    case None => Err("NullPointerException")
    case Some(f) =>
      var image :- AndroidThumbnail.Resize(f, width, height);
      Ok(Thumbnail(FrameTimeUs(at), image, AndroidThumbnail.JPEG_QUALITY))
  }
}
