/** The nullable column types of Go's database/sql and of github.com/google/uuid:
    a value together with a flag saying whether it is present. */
module NullTypes {
  import opened Uuid

  /** sql.NullString. */
  datatype NullString = NullString(str: string, valid: bool)

  /** time.Time as seconds and nanoseconds since January 1, year 1 UTC; the zero
      value is that instant. */
  datatype Time = Time(sec: int, nsec: int)

  const ZeroTime: Time := Time(0, 0)

  /** sql.NullTime. */
  datatype NullTime = NullTime(time: Time, valid: bool)

  /** The zero sql.NullTime: not valid, zero time. */
  const ZeroNullTime: NullTime := NullTime(ZeroTime, false)

  /** uuid.NullUUID. */
  datatype NullUUID = NullUUID(uuid: UUID, valid: bool)
}
