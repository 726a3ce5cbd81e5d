/** ios/Plugin/TranscodeSettings.swift: the requested output resolution.

    A width or height of 0 means "not specified".  The mutable Swift object
    is a value here, as for the trim settings. */
module IosTranscodeSettings {
  import opened Results
  import opened JavaInts   // Swift `Int` is 64-bit on iOS

  datatype TranscodeSettings = TranscodeSettings(height: Int64, width: Int64, keepAspectRatio: bool)

  const HEIGHT_NEGATIVE: string := "Parameter height cannot be negative"
  const WIDTH_NEGATIVE: string := "Parameter width cannot be negative"

  /** The class invariant every constructor and setter keeps; 0 is allowed. */
  predicate Valid(t: TranscodeSettings) { t.height >= 0 && t.width >= 0 }

  /** `init(height:width:keepAspectRatio:)`, the only initialiser: it throws
      `TranscodeSettingsError.invalidArgument` for a negative dimension,
      height checked before width. */
  function New(height: Int64, width: Int64, keepAspectRatio: bool): (r: Result<TranscodeSettings>)
    ensures r.Ok? <==> height >= 0 && width >= 0
    ensures height < 0 ==> r == Err(HEIGHT_NEGATIVE)
    ensures height >= 0 && width < 0 ==> r == Err(WIDTH_NEGATIVE)
    ensures r.Ok? ==> Valid(r.value) && r.value.height == height && r.value.width == width
                      && r.value.keepAspectRatio == keepAspectRatio
  {
    if height < 0 then Err(HEIGHT_NEGATIVE)
    else if width < 0 then Err(WIDTH_NEGATIVE)
    else Ok(TranscodeSettings(height, width, keepAspectRatio))
  }

  /** `setHeight`: a negative value throws and changes nothing. */
  function SetHeight(t: TranscodeSettings, height: Int64): (r: SetterCall<TranscodeSettings>)
    ensures r.thrown.Some? <==> height < 0
    ensures height < 0 ==> r.state == t && r.thrown == Some(HEIGHT_NEGATIVE)
    ensures height >= 0 ==> r.state.height == height && r.state.width == t.width
                            && r.state.keepAspectRatio == t.keepAspectRatio
    ensures Valid(t) ==> Valid(r.state)
  {
    if height < 0 then SetterCall(t, Some(HEIGHT_NEGATIVE))
    else SetterCall(t.(height := height), None)
  }

  /** `setWidth`: a negative value throws and changes nothing. */
  function SetWidth(t: TranscodeSettings, width: Int64): (r: SetterCall<TranscodeSettings>)
    ensures r.thrown.Some? <==> width < 0
    ensures width < 0 ==> r.state == t && r.thrown == Some(WIDTH_NEGATIVE)
    ensures width >= 0 ==> r.state.width == width && r.state.height == t.height
                           && r.state.keepAspectRatio == t.keepAspectRatio
    ensures Valid(t) ==> Valid(r.state)
  {
    if width < 0 then SetterCall(t, Some(WIDTH_NEGATIVE))
    else SetterCall(t.(width := width), None)
  }

  /** `setKeepAspectRatio`: accepts either value and never throws. */
  function SetKeepAspectRatio(t: TranscodeSettings, keep: bool): (r: SetterCall<TranscodeSettings>)
    ensures r.thrown.None?
    ensures r.state.keepAspectRatio == keep
    ensures r.state.height == t.height && r.state.width == t.width
  {
    SetterCall(t.(keepAspectRatio := keep), None)
  }

  /** A setter call a client may make; a thrown exception is caught by the
      client and the object lives on. */
  datatype Update = SetH(height: Int64) | SetW(width: Int64) | SetKeep(keep: bool)

  function ApplyAll(t: TranscodeSettings, updates: seq<Update>): TranscodeSettings
    decreases |updates|
  {
    if |updates| == 0 then t
    else
      var next := match updates[0]
        case SetH(v) => SetHeight(t, v).state
        case SetW(v) => SetWidth(t, v).state
        case SetKeep(k) => SetKeepAspectRatio(t, k).state;
      ApplyAll(next, updates[1..])
  }

  /** Width and height stay non-negative under any sequence of setter calls. */
  lemma {:induction false} ValidAfterAnyUpdates(t: TranscodeSettings, updates: seq<Update>)
    requires Valid(t)
    ensures Valid(ApplyAll(t, updates))
    decreases |updates|
  {
    if |updates| > 0 {
      var next := match updates[0]
        case SetH(v) => SetHeight(t, v).state
        case SetW(v) => SetWidth(t, v).state
        case SetKeep(k) => SetKeepAspectRatio(t, k).state;
      ValidAfterAnyUpdates(next, updates[1..]);
    }
  }
}
