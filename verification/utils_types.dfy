/** Pointer and nullable-type conversions of utils/types.go. A pointer is
    modelled by the value it points to (`None` is nil). */
module UtilsTypes {
  import opened Wrappers
  import opened Uuid
  import opened NullTypes

  /** A pointer to the string, never nil, also for "". */
  function StringToPointer(value: string): (r: Option<string>)
    ensures r.Some? && r.value == value
  {
    Some(value)
  }

  /** Nil for "", otherwise a pointer to the string. */
  function StringToPointerWithNil(value: string): (r: Option<string>)
    ensures r.None? <==> value == ""
    ensures r.Some? ==> r.value == value
  {
    if value == "" then None else Some(value)
  }

  /** The pointee, or "" for nil. */
  function StringPointerToString(value: Option<string>): (r: string)
    ensures value.Some? ==> r == value.value
    ensures value.None? ==> r == ""
  {
    if value.Some? then value.value else ""
  }

  /** The pointee, or the default for nil. */
  function StringPointerToStringWithDefault(value: Option<string>, defaultValue: string): (r: string)
    ensures value.Some? ==> r == value.value
    ensures value.None? ==> r == defaultValue
  {
    if value.Some? then value.value else defaultValue
  }

  /** The string if valid, otherwise "". */
  function NullStringToString(value: NullString): (r: string)
    ensures value.valid ==> r == value.str
    ensures !value.valid ==> r == ""
  {
    if value.valid then value.str else ""
  }

  /** A pointer to the string if valid, otherwise nil. */
  function NullStringToStringPointer(value: NullString): (r: Option<string>)
    ensures r.Some? <==> value.valid
    ensures r.Some? ==> r.value == value.str
  {
    if value.valid then Some(value.str) else None
  }

  /** The UUID itself, valid exactly when it is not the all-zero UUID. */
  function UUIDToNullUUID(value: UUID): (r: NullUUID)
    ensures r.uuid == value
    ensures r.valid <==> value != Nil
  {
    NullUUID(value, value != Nil)
  }

  /** A pointer to the UUID if valid, otherwise nil. */
  function NullUUIDToUUIDPointer(value: NullUUID): (r: Option<UUID>)
    ensures r.Some? <==> value.valid
    ensures r.Some? ==> r.value == value.uuid
  {
    if value.valid then Some(value.uuid) else None
  }

  /** A pointer to the time if valid, otherwise nil. */
  function NullTimeToTimePointer(value: NullTime): (r: Option<Time>)
    ensures r.Some? <==> value.valid
    ensures r.Some? ==> r.value == value.time
  {
    if value.valid then Some(value.time) else None
  }

  /** A valid NullTime holding the pointee, or the zero NullTime for nil. */
  function TimePointerToNullTime(value: Option<Time>): (r: NullTime)
    ensures r.valid <==> value.Some?
    ensures value.Some? ==> r.time == value.value
    ensures value.None? ==> r == ZeroNullTime
  {
    if value.Some? then NullTime(value.value, true) else NullTime(ZeroTime, false)
  }

  /** A pointer to the integer, never nil. */
  function IntToPointer(value: int): (r: Option<int>)
    ensures r.Some? && r.value == value
  {
    Some(value)
  }

  /** Dereferencing a pointer made from a string gives the string back, with
      or without the nil-for-empty rule. */
  lemma StringPointerRoundTrip(s: string)
    ensures StringPointerToString(StringToPointer(s)) == s
    ensures StringPointerToString(StringToPointerWithNil(s)) == s
  {
  }

  /** Turning a pointer into a string and back gives the same pointer, except
      that a pointer to "" comes back as nil. */
  lemma StringRoundTripWithNil(p: Option<string>)
    ensures StringToPointerWithNil(StringPointerToString(p)) == p <==> p != Some("")
  {
  }

  /** The pointer form and the string form of a NullString agree. */
  lemma NullStringFormsAgree(value: NullString)
    ensures StringPointerToString(NullStringToStringPointer(value)) == NullStringToString(value)
  {
  }

  /** A UUID survives the trip through NullUUID unless it is the all-zero UUID,
      which comes back as nil. */
  lemma UUIDRoundTrip(u: UUID)
    ensures NullUUIDToUUIDPointer(UUIDToNullUUID(u)) == if u == Nil then None else Some(u)
  {
  }

  /** A time pointer survives the trip through NullTime, nil included. */
  lemma TimePointerRoundTrip(p: Option<Time>)
    ensures NullTimeToTimePointer(TimePointerToNullTime(p)) == p
  {
  }

  /** A NullTime survives the trip through a pointer exactly when it is valid or
      is the zero NullTime (an invalid NullTime forgets its time). */
  lemma NullTimeRoundTrip(n: NullTime)
    ensures TimePointerToNullTime(NullTimeToTimePointer(n)) == n <==> (n.valid || n == ZeroNullTime)
  {
  }

  /** The test cases: a UUID with a non-zero byte is valid, the nil UUID is not. */
  lemma UUIDToNullUUIDExamples()
    ensures !UUIDToNullUUID(Nil).valid
    ensures UUIDToNullUUID([0xbf, 0xb2, 0x92, 0xaf, 0xb8, 0x06, 0x4c, 0xbb, 0x87, 0x0b, 0xb1, 0xf0, 0x7e, 0x14, 0x8d, 0xf9]).valid
  {
  }
}
