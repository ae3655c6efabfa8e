/** The conversions of db/dbutils.go. Each has the same body as the function of
    the same name in utils/types.go, so each is that function. */
module DbUtils {
  import opened Wrappers
  import opened NullTypes
  import UtilsTypes

  /** The string if valid, otherwise "". */
  function NullStringToString(value: NullString): (r: string)
    ensures value.valid ==> r == value.str
    ensures !value.valid ==> r == ""
  {
    UtilsTypes.NullStringToString(value)
  }

  /** A pointer to the string if valid, otherwise nil. */
  function NullStringToStringPointer(value: NullString): (r: Option<string>)
    ensures r.Some? <==> value.valid
    ensures r.Some? ==> r.value == value.str
  {
    UtilsTypes.NullStringToStringPointer(value)
  }

  /** A pointer to the time if valid, otherwise nil. */
  function NullTimeToTimePointer(value: NullTime): (r: Option<Time>)
    ensures r.Some? <==> value.valid
    ensures r.Some? ==> r.value == value.time
  {
    UtilsTypes.NullTimeToTimePointer(value)
  }

  /** A valid NullTime holding the pointee, or the zero NullTime for nil. */
  function TimePointerToNullTime(value: Option<Time>): (r: NullTime)
    ensures r.valid <==> value.Some?
    ensures value.Some? ==> r.time == value.value
    ensures value.None? ==> r == ZeroNullTime
  {
    UtilsTypes.TimePointerToNullTime(value)
  }

  /** A time pointer survives the trip through NullTime, nil included. */
  lemma TimePointerRoundTrip(p: Option<Time>)
    ensures NullTimeToTimePointer(TimePointerToNullTime(p)) == p
  {
    UtilsTypes.TimePointerRoundTrip(p);
  }
}
