/** ios/Plugin/TrimSettings.swift: the requested trim window (documented as
    milliseconds; the iOS editor reads it as seconds).

    The mutable Swift object is a value here: the constructor either yields
    an object or throws, and each setter yields the object's state after
    the call together with the exception it threw. */
module IosTrimSettings {
  import opened Results
  import opened JavaInts   // Swift `CLong` is 64-bit on iOS

  datatype TrimSettings = TrimSettings(startsAt: Int64, endsAt: Int64)

  const STARTS_AT_NEGATIVE: string := "Parameter startsAt cannot be negative"
  const ENDS_AT_NEGATIVE: string := "Parameter endsAt cannot be negative"

  /** The class invariant every constructor and setter keeps. */
  predicate Valid(t: TrimSettings) { t.startsAt >= 0 && t.endsAt >= 0 }

  /** `init(startsAt:endsAt:)`, the only initialiser: it throws
      `TrimSettingsError.invalidArgument` for a negative bound, `startsAt`
      checked first; no order between the bounds is required. */
  function New(startsAt: Int64, endsAt: Int64): (r: Result<TrimSettings>)
    ensures r.Ok? <==> startsAt >= 0 && endsAt >= 0
    ensures startsAt < 0 ==> r == Err(STARTS_AT_NEGATIVE)
    ensures startsAt >= 0 && endsAt < 0 ==> r == Err(ENDS_AT_NEGATIVE)
    ensures r.Ok? ==> Valid(r.value) && r.value.startsAt == startsAt && r.value.endsAt == endsAt
  {
    if startsAt < 0 then Err(STARTS_AT_NEGATIVE)
    else if endsAt < 0 then Err(ENDS_AT_NEGATIVE)
    else Ok(TrimSettings(startsAt, endsAt))
  }

  /** `setStartsAt`: a negative value throws and changes nothing; otherwise
      `getStartsAt` returns the new value and `endsAt` is untouched. */
  function SetStartsAt(t: TrimSettings, startsAt: Int64): (r: SetterCall<TrimSettings>)
    ensures r.thrown.Some? <==> startsAt < 0
    ensures startsAt < 0 ==> r.state == t && r.thrown == Some(STARTS_AT_NEGATIVE)
    ensures startsAt >= 0 ==> r.state.startsAt == startsAt && r.state.endsAt == t.endsAt
    ensures Valid(t) ==> Valid(r.state)
  {
    if startsAt < 0 then SetterCall(t, Some(STARTS_AT_NEGATIVE))
    else SetterCall(t.(startsAt := startsAt), None)
  }

  /** `setEndsAt`: the mirror image of `SetStartsAt`. */
  function SetEndsAt(t: TrimSettings, endsAt: Int64): (r: SetterCall<TrimSettings>)
    ensures r.thrown.Some? <==> endsAt < 0
    ensures endsAt < 0 ==> r.state == t && r.thrown == Some(ENDS_AT_NEGATIVE)
    ensures endsAt >= 0 ==> r.state.endsAt == endsAt && r.state.startsAt == t.startsAt
    ensures Valid(t) ==> Valid(r.state)
  {
    if endsAt < 0 then SetterCall(t, Some(ENDS_AT_NEGATIVE))
    else SetterCall(t.(endsAt := endsAt), None)
  }

  /** A setter call a client may make; a thrown exception is caught by the
      client and the object lives on. */
  datatype Update = SetStart(startsAt: Int64) | SetEnd(endsAt: Int64)

  function ApplyAll(t: TrimSettings, updates: seq<Update>): TrimSettings
    decreases |updates|
  {
    if |updates| == 0 then t
    else
      var next := match updates[0]
        case SetStart(v) => SetStartsAt(t, v).state
        case SetEnd(v) => SetEndsAt(t, v).state;
      ApplyAll(next, updates[1..])
  }

  /** Both bounds stay non-negative under any sequence of setter calls. */
  lemma {:induction false} ValidAfterAnyUpdates(t: TrimSettings, updates: seq<Update>)
    requires Valid(t)
    ensures Valid(ApplyAll(t, updates))
    decreases |updates|
  {
    if |updates| > 0 {
      var next := match updates[0]
        case SetStart(v) => SetStartsAt(t, v).state
        case SetEnd(v) => SetEndsAt(t, v).state;
      ValidAfterAnyUpdates(next, updates[1..]);
    }
  }
}
