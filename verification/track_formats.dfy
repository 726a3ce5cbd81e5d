/** dto/MediaTrackFormat.java, dto/VideoTrackFormat.java and
    dto/AudioTrackFormat.java: per-track metadata records.

    The Java subclass hierarchy becomes a base record embedded in each
    subclass record, and `Track` is the tagged union of what a track list
    may hold (the third variant stands for `GenericTrackFormat`, whose file
    is not part of this model; it carries only the base fields). */
module TrackFormats {
  import opened JavaInts

  datatype MediaTrackFormat = MediaTrackFormat(index: Int32, mimeType: string)

  datatype VideoTrackFormat = VideoTrackFormat(
    base: MediaTrackFormat,
    width: Int32,
    height: Int32,
    bitrate: Int32,
    frameRate: Int32,
    keyFrameInterval: Int32,
    duration: Int64,
    rotation: Int32)

  datatype AudioTrackFormat = AudioTrackFormat(
    base: MediaTrackFormat,
    channelCount: Int32,
    samplingRate: Int32,
    bitrate: Int32,
    duration: Int64)

  datatype Track =
    | Video(video: VideoTrackFormat)
    | Audio(audio: AudioTrackFormat)
    | Generic(generic: MediaTrackFormat)
  {
    /** The fields every track format shares. */
    function Base(): MediaTrackFormat {
      match this
      case Video(v) => v.base
      case Audio(a) => a.base
      case Generic(g) => g
    }
  }

  /** `new MediaTrackFormat(index, mimeType)`: both stored as given. */
  function NewMediaTrackFormat(index: Int32, mimeType: string): (m: MediaTrackFormat)
    ensures m.index == index
    ensures m.mimeType == mimeType
  {
    MediaTrackFormat(index, mimeType)
  }

  /** The copy constructor of `MediaTrackFormat`. */
  function CopyMediaTrackFormat(other: MediaTrackFormat): (m: MediaTrackFormat)
    ensures m == other
  {
    MediaTrackFormat(other.index, other.mimeType)
  }

  /** `new VideoTrackFormat(index, mimeType)`: only the base fields are
      assigned; the rest keep Java's field default 0. */
  function NewVideoTrackFormat(index: Int32, mimeType: string): (v: VideoTrackFormat)
    ensures v.base.index == index && v.base.mimeType == mimeType
    ensures v.width == 0 && v.height == 0 && v.rotation == 0
    ensures v.bitrate == 0 && v.frameRate == 0 && v.keyFrameInterval == 0 && v.duration == 0
  {
    VideoTrackFormat(NewMediaTrackFormat(index, mimeType), 0, 0, 0, 0, 0, 0, 0)
  }

  /** The copy constructor of `VideoTrackFormat`: the base part through the
      base copy constructor, then every own field. */
  function CopyVideoTrackFormat(other: VideoTrackFormat): (v: VideoTrackFormat)
    ensures v == other
  {
    VideoTrackFormat(
      CopyMediaTrackFormat(other.base),
      other.width, other.height, other.bitrate, other.frameRate,
      other.keyFrameInterval, other.duration, other.rotation)
  }

  /** `new AudioTrackFormat(index, mimeType)`: only the base fields are assigned. */
  function NewAudioTrackFormat(index: Int32, mimeType: string): (a: AudioTrackFormat)
    ensures a.base.index == index && a.base.mimeType == mimeType
    ensures a.channelCount == 0 && a.samplingRate == 0 && a.bitrate == 0 && a.duration == 0
  {
    AudioTrackFormat(NewMediaTrackFormat(index, mimeType), 0, 0, 0, 0)
  }

  /** The copy constructor of `AudioTrackFormat`. */
  function CopyAudioTrackFormat(other: AudioTrackFormat): (a: AudioTrackFormat)
    ensures a == other
  {
    AudioTrackFormat(
      CopyMediaTrackFormat(other.base),
      other.channelCount, other.samplingRate, other.bitrate, other.duration)
  }
}
