/** dto/SourceMedia.java: what the Android side learns about a source file
    before transcoding it: its duration and its classified track list. */
module SourceMedia {
  import opened Results
  import opened JavaInts
  import opened MediaFormatUtils
  import opened TrackFormats
  import Decimal

  // Android `MediaFormat` key names the loader reads.
  const KEY_MIME: string := "mime"
  const KEY_WIDTH: string := "width"
  const KEY_HEIGHT: string := "height"
  const KEY_DURATION: string := "durationUs"
  const KEY_ROTATION: string := "rotation-degrees"
  const KEY_BIT_RATE: string := "bitrate"
  const KEY_CHANNEL_COUNT: string := "channel-count"
  const KEY_SAMPLE_RATE: string := "sample-rate"

  const EXTRACT_FAILED: string := "Failed to extract sourceMedia"

  /** One track as `MediaExtractor.getTrackFormat(i)` reports it.  Frame rate
      and key-frame interval are read by helpers of the transcoding library
      whose code is not part of this model; their answers are carried here. */
  datatype ExtractorTrack = ExtractorTrack(format: MediaFormat, frameRate: Int32, keyFrameInterval: Int32)

  /** A loaded `SourceMedia` (the float `durationMs` field is kept in µs). */
  datatype Media = Media(uri: string, size: int, durationUs: Int64, tracks: seq<Track>)

  predicate HasPrefix(s: string, p: string) { |p| <= |s| && s[..|p|] == p }

  /** The MIME type of an extracted track, `None` when it is null. */
  function MimeOf(e: ExtractorTrack): Result<Option<string>>
  {
    GetString(e.format, KEY_MIME)
  }

  /** A present key holds a value the `int` getters can unbox. */
  predicate IntReadable(f: MediaFormat, key: string)
  {
    key !in f || f[key].IntValue?
  }

  /** A present key holds a value the `long` getter can unbox. */
  predicate LongReadable(f: MediaFormat, key: string)
  {
    key !in f || f[key].LongValue?
  }

  /** Every metadata read of the video branch succeeds. */
  predicate VideoReadable(f: MediaFormat)
  {
    && IntReadable(f, KEY_WIDTH) && IntReadable(f, KEY_HEIGHT)
    && LongReadable(f, KEY_DURATION) && IntReadable(f, KEY_ROTATION)
    && IntReadable(f, KEY_BIT_RATE)
  }

  /** Every metadata read of the audio branch succeeds. */
  predicate AudioReadable(f: MediaFormat)
  {
    && IntReadable(f, KEY_CHANNEL_COUNT) && IntReadable(f, KEY_SAMPLE_RATE)
    && LongReadable(f, KEY_DURATION) && IntReadable(f, KEY_BIT_RATE)
  }

  /** The video branch of the loader loop: the metadata of a video track. */
  function ReadVideoTrack(index: Int32, mime: string, e: ExtractorTrack): (r: Result<VideoTrackFormat>)
    ensures r.Ok? <==> VideoReadable(e.format)
    ensures r.Ok? ==> r.value.base == MediaTrackFormat(index, mime)
    ensures r.Ok? && KEY_WIDTH !in e.format ==> r.value.width == -1
    ensures r.Ok? && KEY_WIDTH in e.format ==> r.value.width == e.format[KEY_WIDTH].i
    ensures r.Ok? && KEY_HEIGHT !in e.format ==> r.value.height == -1
    ensures r.Ok? && KEY_HEIGHT in e.format ==> r.value.height == e.format[KEY_HEIGHT].i
    ensures r.Ok? && KEY_ROTATION !in e.format ==> r.value.rotation == 0
    ensures r.Ok? && KEY_ROTATION in e.format ==> r.value.rotation == e.format[KEY_ROTATION].i
    ensures r.Ok? && KEY_DURATION !in e.format ==> r.value.duration == -1
    ensures r.Ok? && KEY_DURATION in e.format ==> r.value.duration == e.format[KEY_DURATION].l
    ensures r.Ok? && KEY_BIT_RATE !in e.format ==> r.value.bitrate == -1
    ensures r.Ok? && KEY_BIT_RATE in e.format ==> r.value.bitrate == e.format[KEY_BIT_RATE].i
    ensures r.Ok? ==> r.value.frameRate == e.frameRate && r.value.keyFrameInterval == e.keyFrameInterval
  {
    var width :- GetInt(e.format, KEY_WIDTH);
    var height :- GetInt(e.format, KEY_HEIGHT);
    var duration :- GetLong(e.format, KEY_DURATION);
    var rotation :- GetIntOr(e.format, KEY_ROTATION, 0);
    var bitrate :- GetInt(e.format, KEY_BIT_RATE);
    var v := NewVideoTrackFormat(index, mime);
    Ok(v.(width := width, height := height, duration := duration,
          frameRate := e.frameRate, keyFrameInterval := e.keyFrameInterval,
          rotation := rotation, bitrate := bitrate))
  }

  /** The audio branch of the loader loop. */
  function ReadAudioTrack(index: Int32, mime: string, e: ExtractorTrack): (r: Result<AudioTrackFormat>)
    ensures r.Ok? <==> AudioReadable(e.format)
    ensures r.Ok? ==> r.value.base == MediaTrackFormat(index, mime)
    ensures r.Ok? && KEY_CHANNEL_COUNT !in e.format ==> r.value.channelCount == -1
    ensures r.Ok? && KEY_CHANNEL_COUNT in e.format ==> r.value.channelCount == e.format[KEY_CHANNEL_COUNT].i
    ensures r.Ok? && KEY_SAMPLE_RATE !in e.format ==> r.value.samplingRate == -1
    ensures r.Ok? && KEY_SAMPLE_RATE in e.format ==> r.value.samplingRate == e.format[KEY_SAMPLE_RATE].i
    ensures r.Ok? && KEY_DURATION !in e.format ==> r.value.duration == -1
    ensures r.Ok? && KEY_DURATION in e.format ==> r.value.duration == e.format[KEY_DURATION].l
    ensures r.Ok? && KEY_BIT_RATE !in e.format ==> r.value.bitrate == -1
    ensures r.Ok? && KEY_BIT_RATE in e.format ==> r.value.bitrate == e.format[KEY_BIT_RATE].i
  {
    var channelCount :- GetInt(e.format, KEY_CHANNEL_COUNT);
    var samplingRate :- GetInt(e.format, KEY_SAMPLE_RATE);
    var duration :- GetLong(e.format, KEY_DURATION);
    var bitrate :- GetInt(e.format, KEY_BIT_RATE);
    var a := NewAudioTrackFormat(index, mime);
    Ok(a.(channelCount := channelCount, samplingRate := samplingRate,
          duration := duration, bitrate := bitrate))
  }

  /** Every read the loader makes of one extracted track succeeds: the MIME
      type, then the reads of the branch its prefix selects. */
  predicate TrackReadable(e: ExtractorTrack)
  {
    && MimeOf(e).Ok?
    && (MimeOf(e).value.Some? && HasPrefix(MimeOf(e).value.value, "video") ==> VideoReadable(e.format))
    && (MimeOf(e).value.Some? && !HasPrefix(MimeOf(e).value.value, "video")
          && HasPrefix(MimeOf(e).value.value, "audio")
        ==> AudioReadable(e.format))
  }

  /** One iteration of the loader loop: no track for a null MIME type, else
      a video, audio or generic track by MIME prefix, carrying index `i`. */
  function ClassifyTrack(i: Int32, e: ExtractorTrack): (r: Result<Option<Track>>)
    ensures r.Ok? <==> TrackReadable(e)
    ensures MimeOf(e).Err? ==> r.Err?
    ensures MimeOf(e) == Ok(None) ==> r == Ok(None)
    ensures r.Ok? && r.value.Some? ==>
              MimeOf(e).Ok? && MimeOf(e).value.Some?
              && r.value.value.Base() == MediaTrackFormat(i, MimeOf(e).value.value)
    ensures r.Ok? && r.value.Some? ==>
              (r.value.value.Video? <==> HasPrefix(MimeOf(e).value.value, "video"))
              && (r.value.value.Audio? <==> !HasPrefix(MimeOf(e).value.value, "video")
                                            && HasPrefix(MimeOf(e).value.value, "audio"))
    ensures MimeOf(e).Ok? && MimeOf(e).value.Some? && HasPrefix(MimeOf(e).value.value, "video") ==>
              var v := ReadVideoTrack(i, MimeOf(e).value.value, e);
              (r.Ok? <==> v.Ok?) && (r.Ok? ==> r.value == Some(Video(v.value)))
    ensures MimeOf(e).Ok? && MimeOf(e).value.Some? && !HasPrefix(MimeOf(e).value.value, "video")
            && HasPrefix(MimeOf(e).value.value, "audio") ==>
              var a := ReadAudioTrack(i, MimeOf(e).value.value, e);
              (r.Ok? <==> a.Ok?) && (r.Ok? ==> r.value == Some(Audio(a.value)))
    ensures MimeOf(e).Ok? && MimeOf(e).value.Some?
            && !HasPrefix(MimeOf(e).value.value, "video") && !HasPrefix(MimeOf(e).value.value, "audio")
            ==> r == Ok(Some(Generic(MediaTrackFormat(i, MimeOf(e).value.value))))
  {
    var mime :- MimeOf(e);
    if mime.None? then Ok(None)
    else if HasPrefix(mime.value, "video") then
      var v :- ReadVideoTrack(i, mime.value, e);
      Ok(Some(Video(v)))
    else if HasPrefix(mime.value, "audio") then
      var a :- ReadAudioTrack(i, mime.value, e);
      Ok(Some(Audio(a)))
    else Ok(Some(Generic(NewMediaTrackFormat(i, mime.value))))
  }

  /** The extracted track has a MIME type, so the loader keeps it. */
  predicate HasMime(e: ExtractorTrack)
  {
    MimeOf(e).Ok? && MimeOf(e).value.Some?
  }

  /** `t` is what the loader makes of the extracted track its index names. */
  predicate ClassifiedFrom(extracted: seq<ExtractorTrack>, t: Track)
  {
    0 <= t.Base().index < |extracted|
    && ClassifyTrack(t.Base().index, extracted[t.Base().index]) == Ok(Some(t))
  }

  predicate AllClassifiedFrom(extracted: seq<ExtractorTrack>, tracks: seq<Track>)
  {
    forall j :: 0 <= j < |tracks| ==> ClassifiedFrom(extracted, tracks[j])
  }

  predicate IndicesIncreasing(tracks: seq<Track>)
  {
    forall j1, j2 :: 0 <= j1 < j2 < |tracks| ==> tracks[j1].Base().index < tracks[j2].Base().index
  }

  predicate Listed(tracks: seq<Track>, i: int)
  {
    exists j :: 0 <= j < |tracks| && tracks[j].Base().index == i
  }

  predicate IndicesBelow(tracks: seq<Track>, k: int)
  {
    forall j :: 0 <= j < |tracks| ==> tracks[j].Base().index < k
  }

  /** Appending the track classified from index `k` keeps the loader's
      invariants. */
  lemma AppendClassified(extracted: seq<ExtractorTrack>, tracks: seq<Track>, k: int, t: Track)
    requires AllClassifiedFrom(extracted, tracks) && IndicesIncreasing(tracks) && IndicesBelow(tracks, k)
    requires ClassifiedFrom(extracted, t) && t.Base().index == k
    ensures AllClassifiedFrom(extracted, tracks + [t])
    ensures IndicesIncreasing(tracks + [t])
    ensures IndicesBelow(tracks + [t], k + 1)
    ensures Listed(tracks + [t], k)
    ensures forall i :: Listed(tracks, i) ==> Listed(tracks + [t], i)
  {
    var ts := tracks + [t];
    assert ts[|tracks|] == t;
    forall i | Listed(tracks, i) ensures Listed(ts, i) {
      var j :| 0 <= j < |tracks| && tracks[j].Base().index == i;
      assert ts[j] == tracks[j];
    }
  }

  /** The track loop of `loadUri`: classifies every extracted track in index
      order, skips null MIME types, and lets an exception from a metadata
      read escape (only `IOException`s are caught, and none arise here). */
  method LoadTracks(extracted: seq<ExtractorTrack>) returns (r: Result<seq<Track>>)
    requires |extracted| <= INT_MAX
    ensures r.Ok? <==> forall i :: 0 <= i < |extracted| ==> ClassifyTrack(i, extracted[i]).Ok?
    ensures r.Ok? <==> forall i :: 0 <= i < |extracted| ==> TrackReadable(extracted[i])
    ensures r.Ok? ==> AllClassifiedFrom(extracted, r.value)
    ensures r.Ok? ==> IndicesIncreasing(r.value)
    ensures r.Ok? ==> forall i :: 0 <= i < |extracted| && HasMime(extracted[i]) ==> Listed(r.value, i)
  {
    var tracks: seq<Track> := [];
    var k := 0;
    while k < |extracted|
      invariant 0 <= k <= |extracted|
      invariant forall i :: 0 <= i < k ==> ClassifyTrack(i, extracted[i]).Ok?
      invariant AllClassifiedFrom(extracted, tracks)
      invariant IndicesIncreasing(tracks)
      invariant IndicesBelow(tracks, k)
      invariant forall i :: 0 <= i < k && HasMime(extracted[i]) ==> Listed(tracks, i)
    {
      var c := ClassifyTrack(k, extracted[k]);
      if c.Err? {
        return Err(c.message);
      }
      if c.value.Some? {
        AppendClassified(extracted, tracks, k, c.value.value);
        tracks := tracks + [c.value.value];
      } else {
        assert !HasMime(extracted[k]);
      }
      k := k + 1;
    }
    r := Ok(tracks);
  }

  /** `getMediaDuration`: the metadata duration (milliseconds, as text)
      times 1000, in a Java `long`. */
  function MediaDurationUs(durationMetadata: Option<string>): (r: Result<Int64>)
    ensures r.Ok? <==> Decimal.ParseLong(durationMetadata).Ok?
    ensures r.Ok? && LONG_MIN <= Decimal.ParseLong(durationMetadata).value * 1000 <= LONG_MAX ==>
              r.value == Decimal.ParseLong(durationMetadata).value * 1000
  {
    var ms :- Decimal.ParseLong(durationMetadata);
    Ok(Wrap64(ms * 1000))
  }

  /** `loadUri`: the duration is read first (a bad value escapes as
      `NumberFormatException`); an extractor that cannot open the source is
      reported as "Failed to extract sourceMedia". */
  method LoadUri(uri: string, size: int, durationMetadata: Option<string>,
                 extraction: Option<seq<ExtractorTrack>>) returns (r: Result<Media>)
    requires extraction.Some? ==> |extraction.value| <= INT_MAX
    ensures MediaDurationUs(durationMetadata).Err? ==> r.Err?
    ensures MediaDurationUs(durationMetadata).Ok? && extraction.None? ==> r == Err(EXTRACT_FAILED)
    ensures r.Ok? ==> extraction.Some? && r.value.uri == uri && r.value.size == size
                      && r.value.durationUs == MediaDurationUs(durationMetadata).value
    ensures MediaDurationUs(durationMetadata).Ok? && extraction.Some? ==>
              (r.Ok? <==> forall i :: 0 <= i < |extraction.value| ==> ClassifyTrack(i, extraction.value[i]).Ok?)
    ensures MediaDurationUs(durationMetadata).Ok? && extraction.Some? ==>
              (r.Ok? <==> forall i :: 0 <= i < |extraction.value| ==> TrackReadable(extraction.value[i]))
    ensures r.Ok? ==> AllClassifiedFrom(extraction.value, r.value.tracks)
                      && IndicesIncreasing(r.value.tracks)
    ensures r.Ok? ==> forall i :: 0 <= i < |extraction.value| && HasMime(extraction.value[i]) ==>
              Listed(r.value.tracks, i)
  {
    var durationUs :- MediaDurationUs(durationMetadata);
    if extraction.None? {
      return Err(EXTRACT_FAILED);
    }
    var tracks :- LoadTracks(extraction.value);
    return Ok(Media(uri, size, durationUs, tracks));
  }

  /** `getVideoTracks`: the video tracks of the list, in list order. */
  function GetVideoTracks(tracks: seq<Track>): (r: seq<VideoTrackFormat>)
    ensures forall v :: v in r <==> Video(v) in tracks
    ensures |r| <= |tracks|
  {
    if |tracks| == 0 then []
    else
      var rest := GetVideoTracks(tracks[1..]);
      assert forall t :: t in tracks <==> t == tracks[0] || t in tracks[1..];
      match tracks[0]
      case Video(v) => [v] + rest
      case _ => rest
  }

  /** Filtering commutes with concatenation, so relative order is kept. */
  lemma {:induction false} GetVideoTracksAppend(a: seq<Track>, b: seq<Track>)
    ensures GetVideoTracks(a + b) == GetVideoTracks(a) + GetVideoTracks(b)
    decreases |a|
  {
    if |a| > 0 {
      assert (a + b)[1..] == a[1..] + b;
      GetVideoTracksAppend(a[1..], b);
    } else {
      assert a + b == b;
    }
  }
}
