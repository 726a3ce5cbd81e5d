/** VideoEditor.swift: the iOS editor that trims with a passthrough export
    session, polls its progress on a timer, and takes centre-cropped
    thumbnails.

    Times are `real` seconds.  The export itself and the image decoder are
    opaque: the events they produce and the frame they decode are
    parameters. */
module IosVideoEditor {
  import opened Results
  import opened AVFoundation
  import IosTrimSettings

  function RealMin(a: real, b: real): (r: real)
    ensures r <= a && r <= b && (r == a || r == b)
  {
    if a <= b then a else b
  }

  /** `CMTimeRange(start:duration:)` */
  datatype TimeRange = TimeRange(start: real, duration: real)

  /** The export window: from `startsAt` seconds for
      min(end - start, assetDuration - start). */
  function TrimRange(t: IosTrimSettings.TrimSettings, assetDuration: real): (r: TimeRange)
    ensures r.start == t.startsAt as real
    ensures r.start + r.duration <= assetDuration
    ensures r.duration <= (t.endsAt - t.startsAt) as real
    ensures r.duration == (t.endsAt - t.startsAt) as real || r.start + r.duration == assetDuration
  {
    var start := t.startsAt as real;
    var end := t.endsAt as real;
    TimeRange(start, RealMin(end - start, assetDuration - start))
  }

  /** An end of 0 does not mean "to the end of the asset" here: the window
      is never longer than end - start, so it is empty or negative. */
  lemma ZeroEndGivesNoOpenWindow(t: IosTrimSettings.TrimSettings, assetDuration: real)
    requires IosTrimSettings.Valid(t) && t.endsAt == 0
    ensures TrimRange(t, assetDuration).duration <= 0.0
  {
  }

  /** A 10-second asset trimmed from 8 to 20 seconds keeps 2 seconds. */
  lemma TrimClampExample()
    ensures TrimRange(IosTrimSettings.TrimSettings(8, 20), 10.0) == TimeRange(8.0, 2.0)
  {
  }

  // ---------------------------------------------------------------------
  // edit: progress timer and completion dispatch

  /** Progress samples at or above this are not forwarded by the timer. */
  const PROGRESS_CAP: real := 0.99
  const EXPORT_CANCELED: string := "Export canceled"
  const PASSTHROUGH_PRESET: string := "AVAssetExportPresetPassthrough"
  const FILE_TYPE_MP4: string := "public.mpeg-4"

  /** What reaches the editor while the export runs: a timer tick reading
      the session's progress, or the export's completion block reading its
      final status. */
  datatype Stimulus =
    | TimerFired(progress: real)
    | ExportFinished(status: ExportSessionStatus, progress: real, error: Option<string>)

  /** The three handlers of `edit`. */
  datatype Callback = OnProgress(progress: real) | OnError(message: string) | OnComplete(url: string)
  {
    predicate IsTerminal() { OnError? || OnComplete? }
  }

  /** The `switch` of the completion block. */
  function Dispatch(status: ExportSessionStatus, progress: real, error: Option<string>,
                    outputURL: Option<string>): (r: seq<Callback>)
    ensures |r| <= 1
    ensures status == Failed ==> r == [OnError(if error.Some? then error.value else "")]
    ensures status == Cancelled ==> r == [OnError(EXPORT_CANCELED)]
    ensures status == Exporting ==> r == [OnProgress(progress)]
    ensures status == Completed ==> (r == [] <==> outputURL.None?) && (outputURL.Some? ==> r == [OnComplete(outputURL.value)])
    ensures status == Unknown || status == Waiting ==> r == []
    ensures (|r| == 1 && r[0].IsTerminal())
              <==> status in {Failed, Cancelled} || (status == Completed && outputURL.Some?)
  {
    match status
    case Failed => [OnError(match error case Some(e) => e case None => "")]
    case Cancelled => [OnError(EXPORT_CANCELED)]
    case Exporting => [OnProgress(progress)]
    case Completed => (match outputURL case Some(url) => [OnComplete(url)] case None => [])
    case _ => []
  }

  /** The callbacks a sequence of stimuli produces, starting with the timer
      valid or not; a finish invalidates the timer before dispatching. */
  function Run(timerValid: bool, stimuli: seq<Stimulus>, outputURL: Option<string>): seq<Callback>
    decreases |stimuli|
  {
    if |stimuli| == 0 then []
    else
      match stimuli[0]
      case TimerFired(p) =>
        (if timerValid && p < PROGRESS_CAP then [OnProgress(p)] else [])
        + Run(timerValid, stimuli[1..], outputURL)
      case ExportFinished(status, p, error) =>
        Dispatch(status, p, error, outputURL) + Run(false, stimuli[1..], outputURL)
  }

  predicate OnlyTicks(stimuli: seq<Stimulus>)
  {
    forall i :: 0 <= i < |stimuli| ==> stimuli[i].TimerFired?
  }

  /** Once the timer is invalidated, ticks produce nothing. */
  lemma {:induction false} InvalidTimerIsSilent(stimuli: seq<Stimulus>, outputURL: Option<string>)
    requires OnlyTicks(stimuli)
    ensures Run(false, stimuli, outputURL) == []
    decreases |stimuli|
  {
    if |stimuli| > 0 {
      InvalidTimerIsSilent(stimuli[1..], outputURL);
    }
  }

  /** Every callback is a progress report below the cap. */
  predicate SamplesBelowCap(r: seq<Callback>)
  {
    forall i :: 0 <= i < |r| ==> r[i].OnProgress? && r[i].progress < PROGRESS_CAP
  }

  /** Ticks alone forward only samples below the cap, and never a terminal
      callback. */
  lemma {:induction false} TicksForwardBelowCap(timerValid: bool, stimuli: seq<Stimulus>, outputURL: Option<string>)
    requires OnlyTicks(stimuli)
    ensures SamplesBelowCap(Run(timerValid, stimuli, outputURL))
    decreases |stimuli|
  {
    if |stimuli| > 0 {
      TicksForwardBelowCap(timerValid, stimuli[1..], outputURL);
      var p := stimuli[0].progress;
      var head: seq<Callback> := if timerValid && p < PROGRESS_CAP then [OnProgress(p)] else [];
      var rest := Run(timerValid, stimuli[1..], outputURL);
      assert Run(timerValid, stimuli, outputURL) == head + rest;
      assert SamplesBelowCap(head);
    }
  }

  /** With one completion among ticks, the callbacks are the forwarded
      samples before it followed by the dispatch: nothing comes after. */
  lemma {:induction false} RunSplitsAtFinish(timerValid: bool, stimuli: seq<Stimulus>, k: nat, outputURL: Option<string>)
    requires k < |stimuli| && stimuli[k].ExportFinished?
    requires OnlyTicks(stimuli[..k]) && OnlyTicks(stimuli[k + 1..])
    ensures Run(timerValid, stimuli, outputURL)
            == Run(timerValid, stimuli[..k], outputURL)
               + Dispatch(stimuli[k].status, stimuli[k].progress, stimuli[k].error, outputURL)
    decreases k
  {
    if k == 0 {
      assert stimuli[1..] == stimuli[k + 1..];
      InvalidTimerIsSilent(stimuli[1..], outputURL);
      assert stimuli[..k] == [];
    } else {
      assert stimuli[1..][..k - 1] == stimuli[1..k];
      assert stimuli[1..][k - 1 + 1..] == stimuli[k + 1..];
      var before := stimuli[1..][..k - 1];
      assert OnlyTicks(before) by {
        forall i | 0 <= i < |before| ensures before[i].TimerFired? {
          assert before[i] == stimuli[..k][i + 1];
        }
      }
      RunSplitsAtFinish(timerValid, stimuli[1..], k - 1, outputURL);
      assert stimuli[..k][0] == stimuli[0];
      assert stimuli[..k][1..] == stimuli[1..][..k - 1];
    }
  }

  /** With exactly one completion, a terminal callback can only be the last
      callback, so at most one is delivered and no progress follows it. */
  lemma TerminalIsLast(timerValid: bool, stimuli: seq<Stimulus>, k: nat, outputURL: Option<string>)
    requires k < |stimuli| && stimuli[k].ExportFinished?
    requires OnlyTicks(stimuli[..k]) && OnlyTicks(stimuli[k + 1..])
    ensures var r := Run(timerValid, stimuli, outputURL);
      forall i :: 0 <= i < |r| && r[i].IsTerminal() ==> i == |r| - 1
  {
    RunSplitsAtFinish(timerValid, stimuli, k, outputURL);
    TicksForwardBelowCap(timerValid, stimuli[..k], outputURL);
  }

  /** A completion whose status is `exporting`, `waiting` or `unknown`
      yields no terminal callback at all. */
  lemma NonFinalStatusEndsSilently(timerValid: bool, stimuli: seq<Stimulus>, k: nat, outputURL: Option<string>)
    requires k < |stimuli| && stimuli[k].ExportFinished?
    requires stimuli[k].status in {Exporting, Waiting, Unknown}
    requires OnlyTicks(stimuli[..k]) && OnlyTicks(stimuli[k + 1..])
    ensures var r := Run(timerValid, stimuli, outputURL);
      forall i :: 0 <= i < |r| ==> !r[i].IsTerminal()
  {
    RunSplitsAtFinish(timerValid, stimuli, k, outputURL);
    TicksForwardBelowCap(timerValid, stimuli[..k], outputURL);
  }

  /** What `edit` configures on the export session. */
  datatype SessionSetup = SessionSetup(preset: string, outputURL: string, outputFileType: string,
                                       optimizeForNetworkUse: bool, timeRange: TimeRange)

  /** `edit`: a crash when no session can be created (its force-unwrap),
      otherwise the configured session and the callbacks it produces. */
  datatype EditRun = EditCrashed | EditStarted(setup: SessionSetup, callbacks: seq<Callback>)

  function Edit(trim: IosTrimSettings.TrimSettings, assetDuration: real, outFile: string,
                sessionCreated: bool, stimuli: seq<Stimulus>): (r: EditRun)
    ensures r.EditCrashed? <==> !sessionCreated
    ensures r.EditStarted? ==>
              && r.setup == SessionSetup(PASSTHROUGH_PRESET, outFile, FILE_TYPE_MP4, true, TrimRange(trim, assetDuration))
              && r.callbacks == Run(true, stimuli, Some(outFile))
  {
    if !sessionCreated then EditCrashed
    else
      EditStarted(SessionSetup(PASSTHROUGH_PRESET, outFile, FILE_TYPE_MP4, true, TrimRange(trim, assetDuration)),
                  Run(true, stimuli, Some(outFile)))
  }

  /** A successful export through `edit` ends with exactly one completion
      callback carrying the output file. */
  lemma EditCompletesOnce(trim: IosTrimSettings.TrimSettings, assetDuration: real, outFile: string,
                          stimuli: seq<Stimulus>, k: nat)
    requires k < |stimuli| && stimuli[k].ExportFinished? && stimuli[k].status == Completed
    requires OnlyTicks(stimuli[..k]) && OnlyTicks(stimuli[k + 1..])
    ensures var r := Edit(trim, assetDuration, outFile, true, stimuli);
      && |r.callbacks| > 0
      && r.callbacks[|r.callbacks| - 1] == OnComplete(outFile)
      && forall i :: 0 <= i < |r.callbacks| - 1 ==> r.callbacks[i].OnProgress?
  {
    RunSplitsAtFinish(true, stimuli, k, Some(outFile));
    TicksForwardBelowCap(true, stimuli[..k], Some(outFile));
  }

  // ---------------------------------------------------------------------
  // thumbnail

  const JPEG_QUALITY: real := 0.8

  /** The frame time: `at` whole seconds, but never past the asset's end. */
  function ThumbnailTime(at: int, assetDuration: real): (r: real)
    ensures r <= assetDuration && r <= at as real
    ensures r == assetDuration || r == at as real
  {
    RealMin(assetDuration, at as real)
  }

  datatype Rect = Rect(x: real, y: real, width: real, height: real)

  /** `cropToBounds`: the largest centred square of the frame.  The
      requested width and height are overwritten on both branches. */
  function CropToBounds(frame: Size, width: real, height: real): (r: Rect)
    ensures r.width == r.height == RealMin(frame.width, frame.height)
    ensures 2.0 * r.x + r.width == frame.width && 2.0 * r.y + r.height == frame.height
    ensures frame.width > frame.height ==> r.y == 0.0
    ensures frame.width <= frame.height ==> r.x == 0.0
  {
    if frame.width > frame.height then
      Rect((frame.width - frame.height) / 2.0, 0.0, frame.height, frame.height)
    else
      Rect(0.0, (frame.height - frame.width) / 2.0, frame.width, frame.width)
  }

  /** The requested size never influences the crop. */
  lemma CropIgnoresRequestedSize(frame: Size, w1: real, h1: real, w2: real, h2: real)
    ensures CropToBounds(frame, w1, h1) == CropToBounds(frame, w2, h2)
  {
  }

  /** A square frame is kept whole. */
  lemma SquareFrameIsKept(side: real)
    ensures CropToBounds(Size(side, side), 0.0, 0.0) == Rect(0.0, 0.0, side, side)
  {
  }

  /** A 1920x1080 frame is cropped to the centred 1080x1080 square. */
  lemma CropExample()
    ensures CropToBounds(Size(1920.0, 1080.0), 1.0, 1.0) == Rect(420.0, 0.0, 1080.0, 1080.0)
  {
  }

  /** The result of `thumbnail`: an error thrown by the decoder or the file
      write, nothing at all when JPEG encoding yields no data, or the
      written crop. */
  datatype ThumbnailRun =
    | ThumbnailThrew(message: string)
    | NothingWritten(time: real)
    | Written(time: real, crop: Rect, quality: real)

  function Thumbnail(at: int, width: int, height: int, assetDuration: real,
                     decoded: Result<Size>, jpegEncodes: bool, writeError: Option<string>): (r: ThumbnailRun)
    ensures decoded.Err? ==> r == ThumbnailThrew(decoded.message)
    ensures decoded.Ok? && !jpegEncodes ==> r == NothingWritten(ThumbnailTime(at, assetDuration))
    ensures decoded.Ok? && jpegEncodes && writeError.Some? ==> r == ThumbnailThrew(writeError.value)
    ensures r.Written? ==>
              && r.time == ThumbnailTime(at, assetDuration)
              && r.crop.width == r.crop.height == RealMin(decoded.value.width, decoded.value.height)
              && r.quality == JPEG_QUALITY
    ensures decoded.Ok? && jpegEncodes && writeError.None? ==>
              r == Written(ThumbnailTime(at, assetDuration),
                           CropToBounds(decoded.value, width as real, height as real), JPEG_QUALITY)
  {
    match decoded
    case Err(message) => ThumbnailThrew(message)
    case Ok(frame) =>
      var time := ThumbnailTime(at, assetDuration);
      var crop := CropToBounds(frame, width as real, height as real);
      if !jpegEncodes then NothingWritten(time)
      else match writeError
        case Some(e) => ThumbnailThrew(e)
        case None => Written(time, crop, JPEG_QUALITY)
  }
}
