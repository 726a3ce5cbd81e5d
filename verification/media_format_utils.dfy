/** MediaFormatUtils.java: typed key lookups on an Android `MediaFormat`
    with a default for missing keys.

    A `MediaFormat` is a map from key to a boxed value.  Reading a present
    key with the wrong getter is the `ClassCastException` of the unboxing
    cast, and a present key holding `null` is the `NullPointerException` of
    unboxing it. */
module MediaFormatUtils {
  import opened Results
  import opened JavaInts

  datatype FormatValue =
    | IntValue(i: Int32)
    | LongValue(l: Int64)
    | StringValue(s: string)
    | NullValue
    | OtherValue   // float, byte buffer: nothing the core reads as such

  type MediaFormat = map<string, FormatValue>

  /** The default the two-argument `getInt` and `getLong` fall back to. */
  const MISSING: int := -1

  /** `MediaFormat.getInteger(key)` on a key known to be present. */
  function GetInteger(f: MediaFormat, key: string): (r: Result<Int32>)
    requires key in f
    ensures r.Ok? <==> f[key].IntValue?
    ensures r.Ok? ==> r.value == f[key].i
  {
    match f[key]
    case IntValue(i) => Ok(i)
    case NullValue => Err("NullPointerException")
    case _ => Err("ClassCastException")
  }

  /** `getInt(mediaFormat, key, defaultValue)`. */
  function GetIntOr(f: MediaFormat, key: string, default: Int32): (r: Result<Int32>)
    ensures key !in f ==> r == Ok(default)
    ensures key in f ==> r == GetInteger(f, key)
  {
    if key in f then GetInteger(f, key) else Ok(default)
  }

  /** `getInt(mediaFormat, key)`: the default is -1. */
  function GetInt(f: MediaFormat, key: string): (r: Result<Int32>)
    ensures key !in f ==> r == Ok(MISSING)
    ensures key in f && f[key].IntValue? ==> r == Ok(f[key].i)
    ensures key in f && !f[key].IntValue? ==> r.Err?
  {
    GetIntOr(f, key, -1)
  }

  /** `getLong(mediaFormat, key)`: the stored `long`, or -1 when the key is absent. */
  function GetLong(f: MediaFormat, key: string): (r: Result<Int64>)
    ensures key !in f ==> r == Ok(MISSING)
    ensures key in f && f[key].LongValue? ==> r == Ok(f[key].l)
    ensures key in f && !f[key].LongValue? ==> r.Err?
  {
    if key in f then
      match f[key]
      case LongValue(l) => Ok(l)
      case NullValue => Err("NullPointerException")
      case _ => Err("ClassCastException")
    else Ok(-1)
  }

  /** `MediaFormat.getString(key)`: `null` (`None`) for an absent key or a
      stored `null`. */
  function GetString(f: MediaFormat, key: string): (r: Result<Option<string>>)
    ensures r == Ok(None) <==> key !in f || f[key].NullValue?
    ensures r.Ok? && r.value.Some? <==> key in f && f[key].StringValue?
    ensures r.Ok? && r.value.Some? ==> r.value.value == f[key].s
  {
    if key !in f then Ok(None)
    else match f[key]
      case StringValue(s) => Ok(Some(s))
      case NullValue => Ok(None)
      case _ => Err("ClassCastException")
  }
}
