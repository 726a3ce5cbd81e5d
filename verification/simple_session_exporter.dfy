/** SimpleSessionExporter.swift: the iOS transcoding exporter and the
    `AVAsset` orientation helpers it uses.

    The asset is reduced to what the exporter reads from it: its video
    tracks (natural size and preferred transform) and whether it has an
    audio track.  What AVFoundation answers (can a composition track be
    added, does insertion throw, is a session created, the final status)
    is a parameter. */
module SimpleSessionExporter {
  import opened Results
  import opened AVFoundation

  datatype VideoTrack = VideoTrack(naturalSize: Size, preferredTransform: Affine)
  datatype Asset = Asset(videoTracks: seq<VideoTrack>, hasAudioTrack: bool)

  /** `UIInterfaceOrientation`, restricted to the four values used. */
  datatype Orientation = Portrait | PortraitUpsideDown | LandscapeLeft | LandscapeRight

  function FirstVideoTrack(asset: Asset): (r: Option<VideoTrack>)
    ensures r.None? <==> |asset.videoTracks| == 0
    ensures r.Some? ==> r.value == asset.videoTracks[0]
  {
    if |asset.videoTracks| == 0 then None else Some(asset.videoTracks[0])
  }

  /** `g_naturalSize`: the first video track's natural size, zero without one. */
  function NaturalSize(asset: Asset): (r: Size)
    ensures |asset.videoTracks| == 0 ==> r == Size(0.0, 0.0)
    ensures |asset.videoTracks| > 0 ==> r == asset.videoTracks[0].naturalSize
  {
    match FirstVideoTrack(asset)
    case None => Size(0.0, 0.0)
    case Some(track) => track.naturalSize
  }

  /** `g_orientation`: a first-match classification of the preferred
      transform's translation against the natural size. */
  function OrientationOf(asset: Asset): Orientation
  {
    match FirstVideoTrack(asset)
    case None => Portrait
    case Some(track) =>
      var t := track.preferredTransform;
      var n := NaturalSize(asset);
      if t.tx == 0.0 && t.ty == 0.0 then LandscapeRight
      else if t.tx == n.width && t.ty == n.height then LandscapeLeft
      else if t.tx == 0.0 && t.ty == n.width then PortraitUpsideDown
      else Portrait
  }

  /** The translation of the first video track's preferred transform. */
  function Translation(asset: Asset): Point
    requires |asset.videoTracks| > 0
  {
    var t := asset.videoTracks[0].preferredTransform;
    Point(t.tx, t.ty)
  }

  /** Each orientation, characterised by the translation patterns that
      precede it and the one it matches. */
  lemma OrientationCases(asset: Asset)
    ensures var n := NaturalSize(asset);
      var o := OrientationOf(asset);
      && (|asset.videoTracks| == 0 ==> o == Portrait)
      && (|asset.videoTracks| > 0 ==>
            var p := Translation(asset);
            && (o == LandscapeRight <==> p == Point(0.0, 0.0))
            && (o == LandscapeLeft <==> p != Point(0.0, 0.0) && p == Point(n.width, n.height))
            && (o == PortraitUpsideDown <==>
                  p != Point(0.0, 0.0) && p != Point(n.width, n.height) && p == Point(0.0, n.width))
            && (o == Portrait <==>
                  p != Point(0.0, 0.0) && p != Point(n.width, n.height) && p != Point(0.0, n.width)))
  {
  }

  /** A zero natural size with a zero translation matches all three
      patterns; the first one wins. */
  lemma ZeroTranslationWinsTies()
    ensures var t := Affine(1.0, 0.0, 0.0, 1.0, 0.0, 0.0);
      OrientationOf(Asset([VideoTrack(Size(0.0, 0.0), t)], false)) == LandscapeRight
  {
  }

  /** `g_isPortrait` */
  function IsPortrait(asset: Asset): (r: bool)
    ensures r <==> OrientationOf(asset) in {Portrait, PortraitUpsideDown}
  {
    var o := OrientationOf(asset);
    o == Portrait || o == PortraitUpsideDown
  }

  /** `g_correctSize`: the natural size, with its sides swapped exactly for
      a portrait orientation. */
  function CorrectSize(asset: Asset): (r: Size)
    ensures IsPortrait(asset) ==> r.width == NaturalSize(asset).height && r.height == NaturalSize(asset).width
    ensures !IsPortrait(asset) ==> r == NaturalSize(asset)
  {
    var n := NaturalSize(asset);
    if IsPortrait(asset) then Size(n.height, n.width) else n
  }

  /** The offset and angle table of `scaleTransform`, as written. */
  function Placement(o: Orientation, cs: Size): (Point, QuarterTurn)
  {
    match o
    case LandscapeLeft => (Point(cs.width, cs.height), PlusHalfPi)
    case LandscapeRight => (Point(0.0, 0.0), NoTurn)
    case PortraitUpsideDown => (Point(0.0, cs.height), MinusHalfPi)
    case Portrait => (Point(cs.width, 0.0), PlusHalfPi)
  }

  /** The affine transform `scale.translatedBy(offset).rotated(angle)`. */
  function Compose(s: real, offset: Point, angle: QuarterTurn): Affine
  {
    RotatedBy(TranslatedBy(Scale(s, s), offset.x, offset.y), angle)
  }

  /** Where a point lands: rotated, then moved by the offset, then scaled. */
  function Placed(s: real, offset: Point, angle: QuarterTurn, p: Point): Point
  {
    var q := Rotate(angle, p);
    Point(s * (q.x + offset.x), s * (q.y + offset.y))
  }

  /** The construction order of `Compose` means rotation acts first and
      scaling last. */
  lemma ComposeMaps(s: real, offset: Point, angle: QuarterTurn, p: Point)
    ensures Apply(Compose(s, offset, angle), p) == Placed(s, offset, angle, p)
  {
    var t := TranslatedBy(Scale(s, s), offset.x, offset.y);
    var q := Rotate(angle, p);
    RotatedByMaps(t, angle, p);
    TranslatedByMaps(Scale(s, s), offset.x, offset.y, q);
    ScaleMaps(s, s, Point(q.x + offset.x, q.y + offset.y));
  }

  /** `scaleTransform(scaleFactor:)` as written. */
  function ScaleTransform(asset: Asset, s: real): Affine
  {
    var (offset, angle) := Placement(OrientationOf(asset), CorrectSize(asset));
    Compose(s, offset, angle)
  }

  /** Every point is rotated by the table's angle, moved by its offset, and
      then scaled. */
  lemma ScaleTransformMaps(asset: Asset, s: real, p: Point)
    ensures var (offset, angle) := Placement(OrientationOf(asset), CorrectSize(asset));
      Apply(ScaleTransform(asset, s), p) == Placed(s, offset, angle, p)
  {
    var (offset, angle) := Placement(OrientationOf(asset), CorrectSize(asset));
    ComposeMaps(s, offset, angle, p);
  }

  /** A landscape-right asset gets a pure scale. */
  lemma LandscapeRightIsPureScale(asset: Asset, s: real)
    requires OrientationOf(asset) == LandscapeRight
    ensures ScaleTransform(asset, s) == Scale(s, s)
  {
  }

  predicate InRect(p: Point, w: real, h: real)
  {
    0.0 <= p.x <= w && 0.0 <= p.y <= h
  }

  lemma ScaleInRange(s: real, v: real, bound: real)
    requires 0.0 <= s && 0.0 <= v <= bound
    ensures 0.0 <= s * v <= s * bound
  {
  }

  /** Scaling a point of a rectangle lands in the scaled rectangle. */
  lemma PlacedInRect(s: real, q: Point, p: Point, w: real, h: real)
    requires 0.0 <= s && InRect(q, w, h) && p == Point(s * q.x, s * q.y)
    ensures InRect(p, s * w, s * h)
  {
    ScaleInRange(s, q.x, w);
    ScaleInRange(s, q.y, h);
  }

  /** A 1920x1080 track whose preferred transform is a half turn with
      translation (1920, 1080), the pattern classified landscape-left. */
  function HalfTurnSample(): (asset: Asset)
    ensures OrientationOf(asset) == LandscapeLeft
    ensures CorrectSize(asset) == Size(1920.0, 1080.0)
  {
    var t := VideoTrack(Size(1920.0, 1080.0), Affine(-1.0, 0.0, 0.0, -1.0, 1920.0, 1080.0));
    var asset := Asset([t], false);
    assert FirstVideoTrack(asset) == Some(t);
    assert NaturalSize(asset) == Size(1920.0, 1080.0);
    asset
  }

  /** Where the as-written landscape-left placement sends the centre of
      that frame at scale 1: outside the 1920x1080 render rectangle. */
  lemma LandscapeLeftLeavesFrame()
    ensures Apply(ScaleTransform(HalfTurnSample(), 1.0), Point(960.0, 540.0)) == Point(1380.0, 2040.0)
    ensures !InRect(Point(1380.0, 2040.0), 1920.0, 1080.0)
  {
    var p := Point(960.0, 540.0);
    assert Placed(1.0, Point(1920.0, 1080.0), PlusHalfPi, p) == Point(1380.0, 2040.0) by {
      assert Rotate(PlusHalfPi, p) == Point(-540.0, 960.0);
    }
    var asset := HalfTurnSample();
    assert Placement(OrientationOf(asset), CorrectSize(asset)) == (Point(1920.0, 1080.0), PlusHalfPi);
    ScaleTransformMaps(asset, 1.0, p);
  }

  /** Before scaling, a table row keeps the natural frame inside the
      corrected frame. */
  predicate RowKeepsFrame(asset: Asset, offset: Point, angle: QuarterTurn, p: Point)
  {
    var q := Rotate(angle, p);
    InRect(Point(q.x + offset.x, q.y + offset.y), CorrectSize(asset).width, CorrectSize(asset).height)
  }

  lemma StaysInFrame(asset: Asset, s: real, offset: Point, angle: QuarterTurn, p: Point)
    requires 0.0 <= s && RowKeepsFrame(asset, offset, angle, p)
    ensures InRect(Placed(s, offset, angle, p), s * CorrectSize(asset).width, s * CorrectSize(asset).height)
  {
    var q := Rotate(angle, p);
    PlacedInRect(s, Point(q.x + offset.x, q.y + offset.y), Placed(s, offset, angle, p),
                 CorrectSize(asset).width, CorrectSize(asset).height);
  }

  /** The three other rows of the as-written table place every point of the
      natural frame inside the scaled corrected frame. */
  lemma OtherOrientationsStayInFrame(asset: Asset, s: real, p: Point)
    requires OrientationOf(asset) != LandscapeLeft
    requires 0.0 <= s
    requires InRect(p, NaturalSize(asset).width, NaturalSize(asset).height)
    ensures InRect(Apply(ScaleTransform(asset, s), p), s * CorrectSize(asset).width, s * CorrectSize(asset).height)
  {
    var (offset, angle) := Placement(OrientationOf(asset), CorrectSize(asset));
    ScaleTransformMaps(asset, s, p);
    assert RowKeepsFrame(asset, offset, angle, p);
    StaysInFrame(asset, s, offset, angle, p);
  }

  /** The table with the landscape-left row corrected to a half turn about
      the offset (cw, ch). */
  function CorrectedPlacement(o: Orientation, cs: Size): (r: (Point, QuarterTurn))
    ensures o != LandscapeLeft ==> r == Placement(o, cs)
    ensures o == LandscapeLeft ==> r == (Point(cs.width, cs.height), Pi)
  {
    if o == LandscapeLeft then (Point(cs.width, cs.height), Pi) else Placement(o, cs)
  }

  /** `scaleTransform(scaleFactor:)` with the corrected table. */
  function CorrectedScaleTransform(asset: Asset, s: real): (r: Affine)
    ensures OrientationOf(asset) != LandscapeLeft ==> r == ScaleTransform(asset, s)
  {
    var (offset, angle) := CorrectedPlacement(OrientationOf(asset), CorrectSize(asset));
    Compose(s, offset, angle)
  }

  /** For a non-degenerate scale, the layer transform as written and the
      repaired one differ exactly on landscape-left assets. */
  lemma LayerIsCorrectedUnlessLandscapeLeft(asset: Asset, s: real)
    requires s != 0.0
    ensures ScaleTransform(asset, s) == CorrectedScaleTransform(asset, s)
            <==> OrientationOf(asset) != LandscapeLeft
  {
    if OrientationOf(asset) == LandscapeLeft {
      var cs := CorrectSize(asset);
      var t := TranslatedBy(Scale(s, s), cs.width, cs.height);
      assert ScaleTransform(asset, s).a == t.c == 0.0;
      assert CorrectedScaleTransform(asset, s).a == -t.a == -s;
    }
  }

  /** With the corrected table every orientation places every point of the
      natural frame inside the scaled corrected frame. */
  lemma CorrectedTransformStaysInFrame(asset: Asset, s: real, p: Point)
    requires 0.0 <= s
    requires InRect(p, NaturalSize(asset).width, NaturalSize(asset).height)
    ensures InRect(Apply(CorrectedScaleTransform(asset, s), p), s * CorrectSize(asset).width, s * CorrectSize(asset).height)
  {
    if OrientationOf(asset) == LandscapeLeft {
      var (offset, angle) := CorrectedPlacement(OrientationOf(asset), CorrectSize(asset));
      ComposeMaps(s, offset, angle, p);
      assert RowKeepsFrame(asset, offset, angle, p);
      StaysInFrame(asset, s, offset, angle, p);
    } else {
      OtherOrientationsStayInFrame(asset, s, p);
    }
  }

  // ---------------------------------------------------------------------
  // export

  /** `CMTime` end of a range: finite seconds or `positiveInfinity`. */
  datatype TimeEnd = At(seconds: real) | PositiveInfinity
  datatype TimeRange = TimeRange(start: real, end: TimeEnd)

  /** A running `AVAssetExportSession`, seen through its progress. */
  datatype Session = Session(progress: real)

  /** A value of the `videoOutputConfiguration` dictionary: an `NSNumber`
      or anything else. */
  datatype ConfigValue = Number(n: int) | NotANumber

  /** The string values of `AVVideoWidthKey` and `AVVideoHeightKey`. */
  const AV_VIDEO_WIDTH_KEY: string := "Width"
  const AV_VIDEO_HEIGHT_KEY: string := "Height"
  const MEDIUM_QUALITY_PRESET: string := "AVAssetExportPresetMediumQuality"
  const FILE_TYPE_MP4: string := "public.mpeg-4"
  const FRAMES_PER_SECOND: int := 30

  datatype Exporter = Exporter(
    asset: Option<Asset>,
    outputURL: Option<string>,
    outputFileType: Option<string>,
    timeRange: TimeRange,
    optimizeForNetworkUse: bool,
    videoOutputConfiguration: Option<map<string, ConfigValue>>,
    session: Option<Session>)

  /** `init()` */
  function NewExporter(): (r: Exporter)
    ensures r.timeRange == TimeRange(0.0, PositiveInfinity)
    ensures r.outputFileType == Some(FILE_TYPE_MP4)
    ensures r.asset.None? && r.outputURL.None? && r.videoOutputConfiguration.None?
    ensures !r.optimizeForNetworkUse && r.session.None?
  {
    Exporter(None, None, Some(FILE_TYPE_MP4), TimeRange(0.0, PositiveInfinity), false, None, None)
  }

  /** `init(withAsset:)` */
  function NewExporterWithAsset(asset: Asset): (r: Exporter)
    ensures r == NewExporter().(asset := Some(asset))
  {
    Exporter(Some(asset), None, Some(FILE_TYPE_MP4), TimeRange(0.0, PositiveInfinity), false, None, None)
  }

  /** The `progress` getter. */
  function Progress(x: Exporter): (r: real)
    ensures x.session.None? ==> r == 0.0
    ensures x.session.Some? ==> r == x.session.value.progress
  {
    match x.session
    case None => 0.0
    case Some(s) => s.progress
  }

  /** The answers AVFoundation gives during one export. */
  datatype Platform = Platform(
    videoCompositionTrackAdded: bool,
    videoInsertThrows: bool,
    audioCompositionTrackAdded: bool,
    audioInsertThrows: bool,
    sessionCreated: bool,
    finalStatus: ExportSessionStatus)

  /** What is handed to the export session. */
  datatype SessionSetup = SessionSetup(
    preset: string, outputURL: string, outputFileType: string,
    renderWidth: int, renderHeight: int, framesPerSecond: int,
    timeRange: TimeRange, layerTransform: Option<Affine>)

  /** The synchronous part of `export`. */
  datatype Start =
    | FailedEarly                         // completion handler called with `.failed`
    | Crashed                             // a force-unwrap of a missing value
    | Started(setup: SessionSetup, running: Exporter)

  /** The layer scale `renderWidth / |mediaSize.width|`; `None` when the
      media width is zero (a non-finite float in the source). */
  function LayerScale(renderWidth: int, track: VideoTrack): (r: Option<real>)
    ensures var m := ApplyToSize(track.naturalSize, track.preferredTransform).width;
      (r.None? <==> m == 0.0) && (r.Some? ==> r.value * (if m < 0.0 then -m else m) == renderWidth as real)
  {
    var m := ApplyToSize(track.naturalSize, track.preferredTransform).width;
    var mediaWidth := if m < 0.0 then -m else m;
    if mediaWidth == 0.0 then None else Some(renderWidth as real / mediaWidth)
  }

  /** Does the insertion step throw?  The audio insertion only happens when
      the asset has an audio track and an audio composition track could be
      added. */
  predicate InsertionThrows(asset: Asset, platform: Platform)
  {
    platform.videoInsertThrows
    || (asset.hasAudioTrack && platform.audioCompositionTrackAdded && platform.audioInsertThrows)
  }

  /** The guards before the session is built all pass: asset, URL and file
      type are set, a video composition track was added for an asset with a
      video track, and no time-range insertion throws. */
  predicate GuardsPass(x: Exporter, platform: Platform)
  {
    && x.asset.Some? && x.outputURL.Some? && x.outputFileType.Some?
    && platform.videoCompositionTrackAdded && |x.asset.value.videoTracks| > 0
    && !InsertionThrows(x.asset.value, platform)
  }

  /** The configuration holds a number under both the width and the height
      key, so the force-unwraps of the two sizes succeed. */
  predicate ConfigHasSize(x: Exporter)
  {
    && x.videoOutputConfiguration.Some?
    && AV_VIDEO_WIDTH_KEY in x.videoOutputConfiguration.value
    && x.videoOutputConfiguration.value[AV_VIDEO_WIDTH_KEY].Number?
    && AV_VIDEO_HEIGHT_KEY in x.videoOutputConfiguration.value
    && x.videoOutputConfiguration.value[AV_VIDEO_HEIGHT_KEY].Number?
  }

  /** The synchronous part of `export`, up to and including storing the
      session.  The layer instruction carries `ScaleTransform` as written,
      which `LayerIsCorrectedUnlessLandscapeLeft` compares with the repair. */
  function StartExport(x: Exporter, platform: Platform): (r: Start)
    ensures (x.asset.None? || x.outputURL.None? || x.outputFileType.None?) ==> r == FailedEarly
    ensures (x.asset.Some? && x.outputURL.Some? && x.outputFileType.Some?
             && (!platform.videoCompositionTrackAdded || |x.asset.value.videoTracks| == 0)) ==> r == FailedEarly
    ensures x.asset.Some? && x.outputURL.Some? && x.outputFileType.Some?
            && platform.videoCompositionTrackAdded && |x.asset.value.videoTracks| > 0 ==>
              (InsertionThrows(x.asset.value, platform) ==> r == FailedEarly)
              && (!InsertionThrows(x.asset.value, platform) && x.videoOutputConfiguration.None? ==> r == Crashed)
    ensures GuardsPass(x, platform) && !ConfigHasSize(x) ==> r == Crashed
    ensures GuardsPass(x, platform) && ConfigHasSize(x) ==>
              (r == FailedEarly <==> !platform.sessionCreated) && (r.Started? <==> platform.sessionCreated)
    ensures r.Started? <==> GuardsPass(x, platform) && ConfigHasSize(x) && platform.sessionCreated
    ensures r.Started? ==>
              && platform.sessionCreated
              && r.running == x.(session := Some(Session(0.0)))
              && r.setup.preset == MEDIUM_QUALITY_PRESET
              && Some(r.setup.outputURL) == x.outputURL
              && Some(r.setup.outputFileType) == x.outputFileType
              && r.setup.framesPerSecond == FRAMES_PER_SECOND
              && r.setup.timeRange == x.timeRange
              && x.videoOutputConfiguration.Some?
              && AV_VIDEO_WIDTH_KEY in x.videoOutputConfiguration.value
              && AV_VIDEO_HEIGHT_KEY in x.videoOutputConfiguration.value
              && x.videoOutputConfiguration.value[AV_VIDEO_WIDTH_KEY] == Number(r.setup.renderWidth)
              && x.videoOutputConfiguration.value[AV_VIDEO_HEIGHT_KEY] == Number(r.setup.renderHeight)
    ensures r.Started? ==>
              var scale := LayerScale(r.setup.renderWidth, x.asset.value.videoTracks[0]);
              && (r.setup.layerTransform.Some? <==> scale.Some?)
              && (scale.Some? ==> r.setup.layerTransform == Some(ScaleTransform(x.asset.value, scale.value)))
  {
    if x.asset.None? || x.outputURL.None? || x.outputFileType.None? then FailedEarly
    else
      var asset := x.asset.value;
      if !platform.videoCompositionTrackAdded || |asset.videoTracks| == 0 then FailedEarly
      else if InsertionThrows(asset, platform) then FailedEarly
      else if x.videoOutputConfiguration.None? then Crashed
      else
        var config := x.videoOutputConfiguration.value;
        if AV_VIDEO_WIDTH_KEY !in config || !config[AV_VIDEO_WIDTH_KEY].Number? then Crashed
        else if AV_VIDEO_HEIGHT_KEY !in config || !config[AV_VIDEO_HEIGHT_KEY].Number? then Crashed
        else
          var width := config[AV_VIDEO_WIDTH_KEY].n;
          var height := config[AV_VIDEO_HEIGHT_KEY].n;
          var layer := match LayerScale(width, asset.videoTracks[0])
                       case None => None
                       case Some(s) => Some(ScaleTransform(asset, s));
          if !platform.sessionCreated then FailedEarly
          else
            Started(SessionSetup(MEDIUM_QUALITY_PRESET, x.outputURL.value, x.outputFileType.value,
                                 width, height, FRAMES_PER_SECOND, x.timeRange, layer),
                    x.(session := Some(Session(0.0))))
  }

  /** The asynchronous completion block: the session is cleared and the
      status collapses to `.completed` or `.failed`. */
  function FinishExport(running: Exporter, status: ExportSessionStatus): (r: (Exporter, ExportSessionStatus))
    ensures r.0 == running.(session := None)
    ensures Progress(r.0) == 0.0
    ensures r.1 == Completed <==> status == Completed
    ensures r.1 == Completed || r.1 == Failed
  {
    (running.(session := None), if status == Completed then Completed else Failed)
  }

  /** One run of `export`: the statuses the completion handler receives and
      the exporter afterwards, or a crash. */
  datatype ExportRun = ExportCrashed | Ran(handlerCalls: seq<ExportSessionStatus>, after: Exporter)

  function Export(x: Exporter, platform: Platform): (r: ExportRun)
    ensures r.ExportCrashed? <==> StartExport(x, platform).Crashed?
    ensures r.Ran? ==> |r.handlerCalls| == 1 && r.handlerCalls[0] in {Completed, Failed}
    ensures r.Ran? ==> r.after == x.(session := r.after.session)
    ensures r.Ran? && !StartExport(x, platform).Started? ==> r.after == x
    ensures r.Ran? && StartExport(x, platform).Started? ==> r.after.session.None? && Progress(r.after) == 0.0
    ensures r.Ran? ==> (r.handlerCalls[0] == Completed <==>
                          StartExport(x, platform).Started? && platform.finalStatus == Completed)
  {
    match StartExport(x, platform)
    case Crashed => ExportCrashed
    case FailedEarly => Ran([Failed], x)
    case Started(_, running) =>
      var (after, status) := FinishExport(running, platform.finalStatus);
      Ran([status], after)
  }

  /** Whether the asset has an audio track never decides the outcome when
      no audio insertion would throw; in particular, a missing audio track
      is not an error. */
  lemma AudioTrackIsOptional(x: Exporter, platform: Platform)
    requires x.asset.Some?
    requires !platform.audioInsertThrows
    ensures StartExport(x.(asset := Some(x.asset.value.(hasAudioTrack := false))), platform).Started?
            <==> StartExport(x, platform).Started?
  {
  }

  /** `AVAsset.simple_export`: a fresh exporter on the asset, with the given
      file type, URL and configuration. */
  function SimpleExport(asset: Asset, outputFileType: Option<string>, outputURL: string,
                        config: map<string, ConfigValue>, platform: Platform): (r: ExportRun)
    ensures outputFileType.None? ==> r == Ran([Failed], NewExporterWithAsset(asset).(outputFileType := None, outputURL := Some(outputURL), videoOutputConfiguration := Some(config)))
    ensures |asset.videoTracks| == 0 ==> r.Ran? && r.handlerCalls == [Failed]
  {
    var x := NewExporterWithAsset(asset).(outputFileType := outputFileType, outputURL := Some(outputURL),
                                          videoOutputConfiguration := Some(config));
    Export(x, platform)
  }
}
