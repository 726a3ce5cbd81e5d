# capacitor-plugin-video-editor in Dafny

This is a model of the native core of the Capacitor video-editor plugin. The plugin trims and transcodes a video, and it extracts a JPEG thumbnail from one. There are three native implementations, and each one is modelled on its own terms:

- **Android, LiTr back end** (`VideoEditorLitr.java`):
  - picks the target resolution, using the "at most N pixels on the long side, even sides" rule;
  - turns the trim window (milliseconds) into a microsecond `MediaRange`;
  - builds fixed codec settings;
  - relays the transformer's listener events, releasing the transformer after each terminal event;
  - renders a thumbnail.
- **Android, Transcoder back end** (`VideoEditor.java`):
  - rejects a zero-duration source;
  - clips the source, reading the trim values as seconds;
  - picks an `atMost` or `exact` video strategy;
  - renders a thumbnail, with the frame time computed in 32-bit `int` arithmetic.
- **Android data** (`dto/`, `MediaFormatUtils.java`):
  - typed `MediaFormat` lookups with defaults;
  - the track-format records and their copy constructors;
  - `VideoSize` and its `toString`;
  - `SourceMedia`, which loads a duration and classifies every extracted track as video, audio or generic by MIME prefix.
- **Settings** (`TrimSettings`, `TranscodeSettings`; Java and Swift):
  - constructors and setters that reject negative values, checked in source order;
  - a class invariant kept under any sequence of setter calls.
- **iOS** (`VideoEditor.swift`, `SimpleSessionExporter.swift`):
  - the trim time range;
  - the export session's callback dispatch, driven by a progress timer and the completion handler;
  - the square centre crop of a thumbnail;
  - the `SimpleSessionExporter`:
    - its guard chain;
    - the asset's orientation, read from the preferred transform's translation;
    - the layer transform built from scale, translation and a quarter-turn rotation;
    - the one-shot completion handler.

How the model is written:

- **Settings objects.** A mutable settings object is a value. A constructor returns a `Result`. A setter returns the state after the call together with the exception it threw, if any.
- **Integers.** Java `int`/`long` and Swift `Int` are the subset types `Int32`/`Int64` in `JavaInts`. Wrap-around is written out where the source can overflow.
- **Reals.** `CGFloat`, `Double` and `CMTime` seconds are exact `real`s. Rotations by ±π/2 and π are exact quarter turns.
- **Framework calls.** The media frameworks appear only through what the core reads from them, which is passed in as parameters: extracted track formats, whether a session could be created, the final export status, and timer and completion stimuli.
- **Outputs.** The core's outputs are explicit values: transform requests, callback sequences and thumbnail runs.

## Model

| member | source | states |
|---|---|---|
| JavaInts.Wrap32 | android/src/main/java/com/whiteguru/capacitor/plugin/videoeditor/VideoEditor.java:78 | the value a Java `int` holds is congruent to the exact result modulo 2^32 and equals it when it is in range |
| JavaInts.Wrap64 | android/src/main/java/com/whiteguru/capacitor/plugin/videoeditor/dto/SourceMedia.java:99 | the value a Java `long` holds is congruent to the exact result modulo 2^64 and equals it when it is in range |
| Decimal.Show | android/src/main/java/com/whiteguru/capacitor/plugin/videoeditor/dto/VideoSize.java:12-18 | integer rendering starts with '-' exactly for negatives, is non-empty and never contains a comma |
| Decimal.ShowRoundTrip | android/src/main/java/com/whiteguru/capacitor/plugin/videoeditor/dto/VideoSize.java:12-18 | reading the rendered integer back gives the same integer |
| Decimal.ParseLong | android/src/main/java/com/whiteguru/capacitor/plugin/videoeditor/dto/SourceMedia.java:98-99 | `Long.parseLong` succeeds exactly on an optionally signed digit string whose value fits in a `long`, and then yields that value; null or malformed text is an error |
| VideoSizes.NewVideoSize | android/src/main/java/com/whiteguru/capacitor/plugin/videoeditor/dto/VideoSize.java:7-10 | the constructor stores width and height unvalidated |
| VideoSizes.ToString | android/src/main/java/com/whiteguru/capacitor/plugin/videoeditor/dto/VideoSize.java:12-18 | the rendering is framed by `VideoSize{width=` and `}` |
| VideoSizes.ToStringRoundTrip | android/src/main/java/com/whiteguru/capacitor/plugin/videoeditor/dto/VideoSize.java:12-18 | `toString` is injective: both fields can be read back from the text |
| VideoSizes.ToStringExample | android/src/main/java/com/whiteguru/capacitor/plugin/videoeditor/dto/VideoSize.java:12-18 | 1280×720 renders as `VideoSize{width=1280, height=720}` |
| MediaFormatUtils.GetInteger | android/src/main/java/com/whiteguru/capacitor/plugin/videoeditor/MediaFormatUtils.java:14 | reading a present key succeeds exactly when it holds an int; a null or differently typed value throws |
| MediaFormatUtils.GetIntOr | android/src/main/java/com/whiteguru/capacitor/plugin/videoeditor/MediaFormatUtils.java:12-17 | an absent key yields the caller's default; a present key yields the stored int or the unboxing exception |
| MediaFormatUtils.GetInt | android/src/main/java/com/whiteguru/capacitor/plugin/videoeditor/MediaFormatUtils.java:8-10 | an absent key yields -1; a present int is returned; anything else throws |
| MediaFormatUtils.GetLong | android/src/main/java/com/whiteguru/capacitor/plugin/videoeditor/MediaFormatUtils.java:19-24 | an absent key yields -1; a present long is returned; anything else throws |
| MediaFormatUtils.GetString | android/src/main/java/com/whiteguru/capacitor/plugin/videoeditor/dto/SourceMedia.java:46 | null exactly for an absent key or a stored null; the stored string when there is one |
| TrackFormats.NewMediaTrackFormat | android/src/main/java/com/whiteguru/capacitor/plugin/videoeditor/dto/MediaTrackFormat.java:10-13 | index and MIME type are stored as given |
| TrackFormats.CopyMediaTrackFormat | android/src/main/java/com/whiteguru/capacitor/plugin/videoeditor/dto/MediaTrackFormat.java:15-18 | the copy is equal to the original |
| TrackFormats.NewVideoTrackFormat | android/src/main/java/com/whiteguru/capacitor/plugin/videoeditor/dto/VideoTrackFormat.java:14-16 | only the base fields are set; every video field keeps the default 0 |
| TrackFormats.CopyVideoTrackFormat | android/src/main/java/com/whiteguru/capacitor/plugin/videoeditor/dto/VideoTrackFormat.java:18-27 | the copy is equal to the original, base fields included |
| TrackFormats.NewAudioTrackFormat | android/src/main/java/com/whiteguru/capacitor/plugin/videoeditor/dto/AudioTrackFormat.java:12-14 | only the base fields are set; every audio field keeps the default 0 |
| TrackFormats.CopyAudioTrackFormat | android/src/main/java/com/whiteguru/capacitor/plugin/videoeditor/dto/AudioTrackFormat.java:16-22 | the copy is equal to the original |
| SourceMedia.ReadVideoTrack | android/src/main/java/com/whiteguru/capacitor/plugin/videoeditor/dto/SourceMedia.java:51-60 | the reads succeed exactly when width, height, rotation and bitrate are absent or stored ints and the duration is absent or a stored long; a loaded video track carries its index and MIME type, each present key's stored value, -1 for a missing width, height, duration or bitrate and 0 for a missing rotation; frame rate and key-frame interval come from the library helpers |
| SourceMedia.ReadAudioTrack | android/src/main/java/com/whiteguru/capacitor/plugin/videoeditor/dto/SourceMedia.java:61-67 | the reads succeed exactly when channel count, sample rate and bitrate are absent or stored ints and the duration is absent or a stored long; a loaded audio track carries its index and MIME type, each present key's stored value, and -1 for each missing key |
| SourceMedia.ClassifyTrack | android/src/main/java/com/whiteguru/capacitor/plugin/videoeditor/dto/SourceMedia.java:45-70 | it succeeds exactly when the MIME read and the reads of the selected branch succeed; a null MIME type yields no track; a `video` prefix yields exactly the video track read at that index; an `audio` prefix (and not `video`) yields exactly the audio track read at that index; any other type yields a generic track; a failing read propagates |
| SourceMedia.AppendClassified | android/src/main/java/com/whiteguru/capacitor/plugin/videoeditor/dto/SourceMedia.java:60 | appending the track classified from the next index keeps the list classified, strictly increasing in index and complete up to that index |
| SourceMedia.LoadTracks | android/src/main/java/com/whiteguru/capacitor/plugin/videoeditor/dto/SourceMedia.java:44-71 | loading succeeds exactly when every track's reads succeed, stated both through the classifier and directly on the stored metadata values; every listed track is what its index classifies to; indices increase; every track with a MIME type is listed |
| SourceMedia.MediaDurationUs | android/src/main/java/com/whiteguru/capacitor/plugin/videoeditor/dto/SourceMedia.java:95-100 | the duration is the parsed millisecond value times 1000 (exact when that fits in a `long`); unparsable metadata throws |
| SourceMedia.LoadUri | android/src/main/java/com/whiteguru/capacitor/plugin/videoeditor/dto/SourceMedia.java:34-75 | a bad duration throws before extraction; an unopenable source gives "Failed to extract sourceMedia"; otherwise loading succeeds exactly when every track's stored metadata can be read by the getters its MIME prefix selects; a loaded media keeps uri, size and duration, lists each track as its extractor index classifies it, in increasing index order, and lists every track that has a MIME type |
| SourceMedia.GetVideoTracks | android/src/main/java/com/whiteguru/capacitor/plugin/videoeditor/dto/SourceMedia.java:77-87 | the result holds exactly the video tracks of the list |
| SourceMedia.GetVideoTracksAppend | android/src/main/java/com/whiteguru/capacitor/plugin/videoeditor/dto/SourceMedia.java:80-84 | filtering distributes over concatenation, so list order is kept |
| AndroidTrimSettings.Default | android/src/main/java/com/whiteguru/capacitor/plugin/videoeditor/TrimSettings.java:4-8 | the no-argument object is valid and selects the whole clip (0, 0) |
| AndroidTrimSettings.New | android/src/main/java/com/whiteguru/capacitor/plugin/videoeditor/TrimSettings.java:10-21 | construction succeeds iff both bounds are non-negative; startsAt is checked first and each failure has its own message; no order between the bounds is demanded |
| AndroidTrimSettings.SetStartsAt | android/src/main/java/com/whiteguru/capacitor/plugin/videoeditor/TrimSettings.java:31-37 | a negative value throws and leaves the object unchanged; otherwise only startsAt changes |
| AndroidTrimSettings.SetEndsAt | android/src/main/java/com/whiteguru/capacitor/plugin/videoeditor/TrimSettings.java:47-53 | a negative value throws and leaves the object unchanged; otherwise only endsAt changes |
| AndroidTrimSettings.ValidAfterAnyUpdates | android/src/main/java/com/whiteguru/capacitor/plugin/videoeditor/TrimSettings.java:31-53 | both bounds stay non-negative under any sequence of setter calls, thrown ones included |
| AndroidTranscodeSettings.Default | android/src/main/java/com/whiteguru/capacitor/plugin/videoeditor/TranscodeSettings.java:5-10 | the no-argument object is valid, 0×0, and keeps the aspect ratio |
| AndroidTranscodeSettings.New | android/src/main/java/com/whiteguru/capacitor/plugin/videoeditor/TranscodeSettings.java:12-19 | construction succeeds iff height and width are non-negative; height is checked first |
| AndroidTranscodeSettings.SetHeight | android/src/main/java/com/whiteguru/capacitor/plugin/videoeditor/TranscodeSettings.java:30-36 | a negative value throws and changes nothing; otherwise only the height changes |
| AndroidTranscodeSettings.SetWidth | android/src/main/java/com/whiteguru/capacitor/plugin/videoeditor/TranscodeSettings.java:42-48 | a negative value throws and changes nothing; otherwise only the width changes |
| AndroidTranscodeSettings.SetKeepAspectRatio | android/src/main/java/com/whiteguru/capacitor/plugin/videoeditor/TranscodeSettings.java:54-56 | never throws and changes only the flag |
| AndroidTranscodeSettings.ValidAfterAnyUpdates | android/src/main/java/com/whiteguru/capacitor/plugin/videoeditor/TranscodeSettings.java:30-56 | width and height stay non-negative under any sequence of setter calls |
| IosTrimSettings.New | ios/Plugin/TrimSettings.swift:16-28 | the only initialiser throws for a negative bound, startsAt first, and otherwise stores both |
| IosTrimSettings.SetStartsAt | ios/Plugin/TrimSettings.swift:43-50 | a negative value throws and changes nothing; otherwise only startsAt changes |
| IosTrimSettings.SetEndsAt | ios/Plugin/TrimSettings.swift:65-72 | a negative value throws and changes nothing; otherwise only endsAt changes |
| IosTrimSettings.ValidAfterAnyUpdates | ios/Plugin/TrimSettings.swift:43-72 | both bounds stay non-negative under any sequence of setter calls |
| IosTranscodeSettings.New | ios/Plugin/TranscodeSettings.swift:15-22 | the only initialiser throws for a negative dimension, height first, and otherwise stores all three fields |
| IosTranscodeSettings.SetHeight | ios/Plugin/TranscodeSettings.swift:33-40 | a negative value throws and changes nothing; otherwise only the height changes |
| IosTranscodeSettings.SetWidth | ios/Plugin/TranscodeSettings.swift:47-54 | a negative value throws and changes nothing; otherwise only the width changes |
| IosTranscodeSettings.SetKeepAspectRatio | ios/Plugin/TranscodeSettings.swift:61-64 | never throws and changes only the flag |
| IosTranscodeSettings.ValidAfterAnyUpdates | ios/Plugin/TranscodeSettings.swift:33-64 | width and height stay non-negative under any sequence of setter calls |
| VideoEditorLitr.EvenFloor | android/src/main/java/com/whiteguru/capacitor/plugin/videoeditor/VideoEditorLitr.java:205-210 | decrementing an odd side gives the largest even number not above it |
| VideoEditorLitr.ScaleMinor | android/src/main/java/com/whiteguru/capacitor/plugin/videoeditor/VideoEditorLitr.java:192-202 | the scaled minor side is the floor of bound·minor/major |
| VideoEditorLitr.ScaledMinorSide | android/src/main/java/com/whiteguru/capacitor/plugin/videoeditor/VideoEditorLitr.java:192-210 | the rounded minor side is even, at most the bound, and within two units of the exact proportional value |
| VideoEditorLitr.CalculateVideoSizeAtMost | android/src/main/java/com/whiteguru/capacitor/plugin/videoeditor/VideoEditorLitr.java:181-213 | a source that fits is kept as is; otherwise the major side becomes the bound and the minor side keeps the source's proportion up to even rounding, so both sides stay within the bound |
| VideoEditorLitr.MinorWithinBound | android/src/main/java/com/whiteguru/capacitor/plugin/videoeditor/VideoEditorLitr.java:193-197 | the truncated minor side of a shrinking resize never exceeds the bound and never reaches `Integer.MIN_VALUE`, so the decrement of an odd side cannot overflow |
| VideoEditorLitr.MostSize | android/src/main/java/com/whiteguru/capacitor/plugin/videoeditor/VideoEditorLitr.java:164-166 | the bound is 1280 when neither side is set, otherwise the larger requested side, and never below either |
| VideoEditorLitr.CalculateTargetVideoSize | android/src/main/java/com/whiteguru/capacitor/plugin/videoeditor/VideoEditorLitr.java:162-179 | with the aspect ratio kept the size fits the most-size bound and keeps the source proportion up to even rounding; without it an exact request is used verbatim (odd sides included), and otherwise the same holds for the bound 720 |
| VideoEditorLitr.GeometryExamples | android/src/main/java/com/whiteguru/capacitor/plugin/videoeditor/VideoEditorLitr.java:181-213 | 1920×1080 at 1280 gives 1280×720; 640×360 is kept; 1080×1080 at 720 gives 720×720 |
| VideoEditorLitr.ExactSizeNotRoundedToEven | android/src/main/java/com/whiteguru/capacitor/plugin/videoeditor/VideoEditorLitr.java:170-174 | an exact 401×301 request is passed through without even rounding |
| VideoEditorLitr.SourceMediaRange | android/src/main/java/com/whiteguru/capacitor/plugin/videoeditor/VideoEditorLitr.java:63-69 | the trim bounds in milliseconds become microseconds; endsAt 0 (and only 0) means up to `Long.MAX_VALUE` |
| VideoEditorLitr.Edit | android/src/main/java/com/whiteguru/capacitor/plugin/videoeditor/VideoEditorLitr.java:44-90 | without a video track the edit fails with "Video track not found"; otherwise the target size comes from the first video track, the range from the trim, and the codec settings are the fixed defaults |
| VideoEditorLitr.Relay | android/src/main/java/com/whiteguru/capacitor/plugin/videoeditor/VideoEditorLitr.java:92-123 | every transformer event is forwarded to the caller's listener unchanged and in order |
| VideoEditorLitr.ReleaseExactlyAfterTerminal | android/src/main/java/com/whiteguru/capacitor/plugin/videoeditor/VideoEditorLitr.java:92-123 | the relay of any event sequence releases the transformer exactly after each terminal event and nowhere else |
| VideoEditorLitr.FrameTimeUs | android/src/main/java/com/whiteguru/capacitor/plugin/videoeditor/VideoEditorLitr.java:143 | widening to `long` before multiplying makes the frame time exactly at·10^6 µs for every `int` |
| VideoEditorLitr.MakeThumbnail | android/src/main/java/com/whiteguru/capacitor/plugin/videoeditor/VideoEditorLitr.java:136-160 | no frame gives an error; the frame is taken at at·10^6 µs and compressed at quality 80; with no size requested the frame is kept as decoded, and with a size requested the thumbnail succeeds exactly when the shared resize does and holds its result |
| AndroidThumbnail.TruncToInt32 | android/src/main/java/com/whiteguru/capacitor/plugin/videoeditor/VideoEditorLitr.java:150-151 | `Double.intValue` truncates toward zero and saturates at the `int` range |
| AndroidThumbnail.ScaledSize | android/src/main/java/com/whiteguru/capacitor/plugin/videoeditor/VideoEditorLitr.java:148-151 | the scaled width is at most height·aspect and the scaled height at most the requested height, both non-negative |
| AndroidThumbnail.Resize | android/src/main/java/com/whiteguru/capacitor/plugin/videoeditor/VideoEditorLitr.java:145-156 | with no size requested the frame is kept; a request with height ≤ 0 fails; otherwise the new height is positive and at most the request, and the width follows the source aspect |
| AndroidThumbnail.WidthOnlyGuards | android/src/main/java/com/whiteguru/capacitor/plugin/videoeditor/VideoEditor.java:80-86 | the requested width matters only through the guard: the resize reads the height alone |
| AndroidThumbnail.WidthOnlyRequestFails | android/src/main/java/com/whiteguru/capacitor/plugin/videoeditor/VideoEditor.java:80-88 | requesting a width without a height fails (scaled size 0) |
| VideoEditorTranscoder.Clip | android/src/main/java/com/whiteguru/capacitor/plugin/videoeditor/VideoEditor.java:24-37 | a zero duration is rejected; the start is startsAt seconds in µs; the end is the duration when endsAt is 0 and otherwise the smaller of the duration and endsAt seconds |
| VideoEditorTranscoder.ChooseVideoStrategy | android/src/main/java/com/whiteguru/capacitor/plugin/videoeditor/VideoEditor.java:45-61 | keeping the aspect ratio gives `atMost` with the same bound rule as LiTr; otherwise the exact requested size, or 1280×720 when a side is missing |
| VideoEditorTranscoder.AtMostBoundAgreesWithLitr | android/src/main/java/com/whiteguru/capacitor/plugin/videoeditor/VideoEditor.java:46-51 | the `atMost` bound equals the LiTr back end's most-size bound |
| VideoEditorTranscoder.FallbackDiffersFromLitr | android/src/main/java/com/whiteguru/capacitor/plugin/videoeditor/VideoEditor.java:58-60 | when a side is missing and the aspect ratio is not kept, this back end forces 1280×720 where LiTr scales 1920×1080 to 720×404 |
| VideoEditorTranscoder.Edit | android/src/main/java/com/whiteguru/capacitor/plugin/videoeditor/VideoEditor.java:21-69 | a zero-duration source is rejected; otherwise the clip starts at startsAt seconds and ends at the full duration when endsAt is 0 and at the smaller of the duration and endsAt seconds otherwise, and the video strategy is chosen as above |
| VideoEditorTranscoder.WrapBeforeProduct | android/src/main/java/com/whiteguru/capacitor/plugin/videoeditor/VideoEditor.java:78 | wrapping an intermediate `int` product does not change the final wrapped result |
| VideoEditorTranscoder.FrameTimeUsAsWritten | android/src/main/java/com/whiteguru/capacitor/plugin/videoeditor/VideoEditor.java:78 | the frame time is at·10^6 reduced to a 32-bit `int` |
| VideoEditorTranscoder.FrameTimeExactIffSmall | android/src/main/java/com/whiteguru/capacitor/plugin/videoeditor/VideoEditor.java:78 | the frame time is exact if and only if -2147 ≤ at ≤ 2147 |
| VideoEditorTranscoder.FrameTimeWrapsAt2148 | android/src/main/java/com/whiteguru/capacitor/plugin/videoeditor/VideoEditor.java:78 | at = 2148 s asks for the frame at -2 146 967 296 µs, unlike LiTr |
| VideoEditorTranscoder.MakeThumbnail | android/src/main/java/com/whiteguru/capacitor/plugin/videoeditor/VideoEditor.java:71-95 | no frame gives an error; the frame is requested at the 32-bit `int` product at·10^6 (wrapped), and compressed at quality 80; with no size requested the frame is kept, and with a size requested the thumbnail succeeds exactly when the shared resize does and holds its result |
| VideoEditorTranscoder.ThumbnailAgreesWithLitrIffSmall | android/src/main/java/com/whiteguru/capacitor/plugin/videoeditor/VideoEditor.java:78 | the two back ends request the same frame time exactly when -2147 ≤ at ≤ 2147; in that range, given the same retriever, they succeed together and produce the same thumbnail |
| VideoEditorTranscoder.TrimUnitsDifferFromLitr | android/src/main/java/com/whiteguru/capacitor/plugin/videoeditor/VideoEditor.java:30-31 | on the same trim settings this back end's clip bounds are 1000 times LiTr's range bounds (seconds against milliseconds), and endsAt 0 means the media duration here where LiTr leaves the end open |
| AVFoundation.ApplyToSize | ios/Plugin/SimpleSessionExporter.swift:113 | `CGSize.applying` uses only the linear part of the transform |
| AVFoundation.ScaleMaps | ios/Plugin/SimpleSessionExporter.swift:237 | a scale transform multiplies each coordinate by its factor |
| AVFoundation.TranslatedByMaps | ios/Plugin/SimpleSessionExporter.swift:238 | `translatedBy` translates a point first and then applies the original transform |
| AVFoundation.RotateByCosSin | ios/Plugin/SimpleSessionExporter.swift:239 | a quarter turn is the rotation matrix of its angle |
| AVFoundation.RotatedByMaps | ios/Plugin/SimpleSessionExporter.swift:239 | `rotated(by:)` rotates a point first and then applies the original transform |
| SimpleSessionExporter.FirstVideoTrack | ios/Plugin/SimpleSessionExporter.swift:75 | the first video track, absent exactly when there is none |
| SimpleSessionExporter.NaturalSize | ios/Plugin/SimpleSessionExporter.swift:187-189 | the first video track's natural size, or zero without one |
| SimpleSessionExporter.OrientationCases | ios/Plugin/SimpleSessionExporter.swift:201-216 | each orientation holds exactly when its translation case is the first to match; no video track means portrait |
| SimpleSessionExporter.ZeroTranslationWinsTies | ios/Plugin/SimpleSessionExporter.swift:206-209 | a zero-sized identity track matches both of the first two cases and is read as landscape right |
| SimpleSessionExporter.IsPortrait | ios/Plugin/SimpleSessionExporter.swift:195-198 | portrait exactly for the two portrait orientations |
| SimpleSessionExporter.CorrectSize | ios/Plugin/SimpleSessionExporter.swift:191-193 | the natural size, with width and height swapped for portrait orientations |
| SimpleSessionExporter.ComposeMaps | ios/Plugin/SimpleSessionExporter.swift:237-241 | the composed transform maps p to s·(rotate(p) + offset) |
| SimpleSessionExporter.ScaleTransformMaps | ios/Plugin/SimpleSessionExporter.swift:218-242 | the layer transform places a point by its orientation's offset and angle |
| SimpleSessionExporter.LandscapeRightIsPureScale | ios/Plugin/SimpleSessionExporter.swift:226-228 | an unrotated track is only scaled |
| SimpleSessionExporter.HalfTurnSample | ios/Plugin/SimpleSessionExporter.swift:206-210 | a 1920×1080 track with a half-turn preferred transform is landscape left with corrected size 1920×1080 |
| SimpleSessionExporter.LandscapeLeftLeavesFrame | ios/Plugin/SimpleSessionExporter.swift:223-225 | for that track the layer transform moves the frame's centre to (1380, 2040), outside the render rectangle |
| SimpleSessionExporter.OtherOrientationsStayInFrame | ios/Plugin/SimpleSessionExporter.swift:226-235 | for every other orientation, a point of the natural frame lands inside the scaled corrected frame |
| SimpleSessionExporter.CorrectedPlacement | ios/Plugin/SimpleSessionExporter.swift:222-235 | the placement table with a half turn for landscape left, unchanged otherwise |
| SimpleSessionExporter.CorrectedScaleTransform | ios/Plugin/SimpleSessionExporter.swift:218-242 | agrees with the layer transform except for landscape left |
| SimpleSessionExporter.CorrectedTransformStaysInFrame | ios/Plugin/SimpleSessionExporter.swift:218-242 | with the corrected placement, every orientation keeps the frame inside the scaled corrected frame |
| SimpleSessionExporter.NewExporter | ios/Plugin/SimpleSessionExporter.swift:17-37 | a new exporter has no asset, URL, configuration or session, exports MP4, and covers zero to +∞ |
| SimpleSessionExporter.NewExporterWithAsset | ios/Plugin/SimpleSessionExporter.swift:27-30 | the convenience initialiser only adds the asset |
| SimpleSessionExporter.Progress | ios/Plugin/SimpleSessionExporter.swift:51-55 | the running session's progress, 0 without one |
| SimpleSessionExporter.LayerScale | ios/Plugin/SimpleSessionExporter.swift:112-115 | the scale maps the transformed media width onto the render width; a zero media width has no finite scale |
| SimpleSessionExporter.StartExport | ios/Plugin/SimpleSessionExporter.swift:61-145 | a missing asset, URL or file type, a missing video track, a failed track insertion or a failed session creation fails early; once those guards pass, a configuration without a number under both the width and the height key crashes; an export starts exactly when the guards pass, both sizes are numbers and the session is created; a started session uses the medium-quality preset, the configured render size, 30 fps and the exporter's time range; the layer transform is present exactly when the layer scale is finite, and is then `scaleTransform` at that scale, as written |
| SimpleSessionExporter.LayerIsCorrectedUnlessLandscapeLeft | ios/Plugin/SimpleSessionExporter.swift:222-241 | for a non-zero scale, the layer transform as written equals the repaired one exactly when the asset is not landscape left |
| SimpleSessionExporter.FinishExport | ios/Plugin/SimpleSessionExporter.swift:147-160 | the session is cleared, so progress reads 0, and the handler gets completed exactly for a completed export and failed otherwise |
| SimpleSessionExporter.Export | ios/Plugin/SimpleSessionExporter.swift:61-162 | unless it crashes, the handler is called exactly once, with completed or failed, and completed exactly when the session started and finished completed; an early failure leaves the exporter untouched (a stored session keeps reporting progress); a finished session is cleared |
| SimpleSessionExporter.AudioTrackIsOptional | ios/Plugin/SimpleSessionExporter.swift:87-95 | an asset without audio starts exactly when the same asset with audio would |
| SimpleSessionExporter.SimpleExport | ios/Plugin/SimpleSessionExporter.swift:176-185 | a nil file type or an asset without video fails once through the handler |
| IosVideoEditor.RealMin | ios/Plugin/VideoEditor.swift:20 | the minimum is a lower bound of both arguments and equals one of them |
| IosVideoEditor.TrimRange | ios/Plugin/VideoEditor.swift:18-21 | the range starts at startsAt seconds and lasts until endsAt or the asset's end, whichever comes first |
| IosVideoEditor.ZeroEndGivesNoOpenWindow | ios/Plugin/VideoEditor.swift:19-20 | endsAt 0 is not "to the end": the duration is at most zero |
| IosVideoEditor.TrimClampExample | ios/Plugin/VideoEditor.swift:18-21 | trimming 8–20 s of a 10 s asset gives the range from 8 s lasting 2 s |
| IosVideoEditor.Dispatch | ios/Plugin/VideoEditor.swift:45-62 | failed reports the error text, cancelled reports "Export canceled", exporting reports progress, completed reports the URL when there is one, and the rest report nothing; a terminal callback is sent exactly for failed, cancelled or completed-with-URL |
| IosVideoEditor.InvalidTimerIsSilent | ios/Plugin/VideoEditor.swift:43 | once the timer is invalidated, ticks produce no callbacks |
| IosVideoEditor.TicksForwardBelowCap | ios/Plugin/VideoEditor.swift:32-39 | ticks forward only progress samples below 0.99 |
| IosVideoEditor.RunSplitsAtFinish | ios/Plugin/VideoEditor.swift:32-64 | a run is the ticks before completion followed by the completion's dispatch; later ticks are silent |
| IosVideoEditor.TerminalIsLast | ios/Plugin/VideoEditor.swift:41-64 | a terminal callback is always the last one |
| IosVideoEditor.NonFinalStatusEndsSilently | ios/Plugin/VideoEditor.swift:52-61 | finishing in a non-final status never reports completion or error |
| IosVideoEditor.Edit | ios/Plugin/VideoEditor.swift:8-65 | the passthrough session exports MP4 to the output file, optimised for the network, over the trim range, and its callbacks are those of the run |
| IosVideoEditor.EditCompletesOnce | ios/Plugin/VideoEditor.swift:32-59 | a completed export ends with exactly one completion for the output file, preceded only by progress |
| IosVideoEditor.ThumbnailTime | ios/Plugin/VideoEditor.swift:77-83 | the frame time is the smaller of `at` seconds and the asset duration |
| IosVideoEditor.CropToBounds | ios/Plugin/VideoEditor.swift:95-126 | the crop is the centred square whose side is the shorter image side |
| IosVideoEditor.CropIgnoresRequestedSize | ios/Plugin/VideoEditor.swift:101-115 | the requested width and height never affect the crop |
| IosVideoEditor.SquareFrameIsKept | ios/Plugin/VideoEditor.swift:110-115 | a square image is kept whole |
| IosVideoEditor.CropExample | ios/Plugin/VideoEditor.swift:105-109 | a 1920×1080 image is cropped to the 1080 square at x = 420 |
| IosVideoEditor.Thumbnail | ios/Plugin/VideoEditor.swift:67-93 | a decoding failure or a write failure throws; a failed JPEG encoding writes nothing; a decoded frame that encodes and writes successfully is written as the centred square crop of the frame, at the frame time, at quality 0.8 |

## Left out

- Framework calls are parameters or are left out: the LiTr `MediaTransformer`, the Transcoder library's `Transcoder`/`DataSource`, `MediaExtractor`, `MediaMetadataRetriever`, `Bitmap`, and every AVFoundation/UIKit object. Their results are parameters (track formats, decoded frame sizes, session creation, final status, timer ticks) and their effects are result values.
- Timers and asynchrony: the 0.1 s progress timer, `exportAsynchronously` and `DispatchQueue.main.async` are modelled as an ordered sequence of stimuli; interleavings beyond that order are not modelled.
- `estimateVideoBitRate` (VideoEditorLitr.java:40-42) and the video bit-rate key it sets: float arithmetic, not modelled.
- The LiTr frame-rate and key-frame-interval lookups (`getFrameRate`, `getIFrameInterval`): their code is not part of this model, so their answers are inputs.
- `GenericTrackFormat` is not part of this model; a generic track carries the base fields only.
- `SourceMedia.durationMs` is a float; the model keeps the duration in µs. `TranscoderUtils.getSize` is an input.
- The request id, the source URI, the file paths, `Logger.debug` lines and the colour-format key: none affects what the core computes.
- VideoEditorLitr.CalculateVideoSizeAtMost: the `float` ratio and the `(int)` cast are modelled as exact truncating division, so float rounding that could change the last pixel is not modelled.
- VideoEditorLitr.SourceMediaRange: the `long` products are unbounded, so trim values above `Long.MAX_VALUE`/1000 ms (overflow) are not modelled.
- VideoEditorTranscoder.Clip: the `long` products are unbounded; trim values above about 9.2·10^12 s would wrap.
- AndroidThumbnail.Resize: `double` division and multiplication are exact reals, so floating-point rounding in `intValue` is not modelled; the scaled-bitmap contents are left out.
- IosVideoEditor.TrimRange: `CMTimeMakeWithSeconds` with timescale 0 and CMTime's rational arithmetic are modelled as exact seconds, and timescale effects are left out.
- SimpleSessionExporter.ScaleTransform: `Double.pi / 2` is an exact quarter turn, so the tiny non-zero cosine of the real rotation is not modelled.
- SimpleSessionExporter.LayerScale: a zero media width yields no scale (`None`) where Swift would produce an infinite or NaN `CGFloat`.
- The composition instruction's duration range and the `AVMutableComposition` contents are not modelled beyond the time range inserted.
- VideoEditorLitr.MakeThumbnail and VideoEditorTranscoder.MakeThumbnail: with a null bitmap and no size requested, the source creates the output file before the compress call throws; the model's error result does not record that empty file.
- IosVideoEditor.CropToBounds: `cgimage.cropping(to:)!` is assumed to succeed; image scale and orientation are carried over unchanged and not modelled.
- Text parsing (`Long.parseLong`) accepts ASCII digits only.
- The plugin classes (`VideoEditorPlugin.java`, `VideoEditorPlugin.swift`) and the web layer, which read call options and route them to this core.

## Observations

- The trim unit differs by back end. `VideoEditorLitr` multiplies the trim bounds by 1000 (milliseconds). `VideoEditor.java` multiplies them by 10^6 (seconds). The iOS editor uses them as seconds. The settings classes document milliseconds.
- `endsAt == 0` means different things:
  - LiTr: "to the end" (`Long.MAX_VALUE`);
  - Transcoder: the full duration;
  - iOS: a range of non-positive duration (`ZeroEndGivesNoOpenWindow`).
- On Android, a thumbnail request with a width but no height produces a zero-sized scaled bitmap, which Android rejects (`WidthOnlyRequestFails`). The requested width is otherwise ignored.
- On iOS, an export that finishes as waiting, exporting or unknown never gets a terminal callback (`NonFinalStatusEndsSilently`).
- The iOS thumbnail time is `min(duration, at)` with no clamp at 0.

## Findings

| source | as written | input that shows it | evidently intended | confidence | as-written member | corrected member |
|---|---|---|---|---|---|---|
| android/src/main/java/com/whiteguru/capacitor/plugin/videoeditor/VideoEditor.java:78 | `at * 1000 * 1000` is computed in 32-bit `int` and widened only afterwards | at = 2148 s requests the frame at -2 146 967 296 µs | widen before multiplying, as VideoEditorLitr.java:143 does, giving at·10^6 µs | not executed | VideoEditorTranscoder.FrameTimeUsAsWritten | VideoEditorLitr.FrameTimeUs |
| ios/Plugin/SimpleSessionExporter.swift:223-225 | a landscape-left track (half-turn preferred transform) gets offset (width, height) with a +π/2 rotation | 1920×1080 track with transform (-1, 0, 0, -1, 1920, 1080): the centre (960, 540) lands at (1380, 2040), outside the 1920×1080 render rectangle | a half turn (π) about the same offset, which keeps the frame in the render rectangle | not executed | SimpleSessionExporter.LandscapeLeftLeavesFrame | SimpleSessionExporter.CorrectedScaleTransform |
