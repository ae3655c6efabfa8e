/** A UUID as sixteen bytes, and its canonical text form
    xxxxxxxx-xxxx-xxxx-xxxx-xxxxxxxxxxxx (lower-case hex, RFC 4122 section 3). */
module Uuid {
  import opened Bytes

  /** Sixteen zero bytes. */
  const NilBytes: seq<Byte> := [0, 0, 0, 0, 0, 0, 0, 0, 0, 0, 0, 0, 0, 0, 0, 0]

  type UUID = s: seq<Byte> | |s| == 16 witness NilBytes

  /** The all-zero UUID. */
  const Nil: UUID := NilBytes

  /** The lower-case hex digit of a nibble. */
  function HexDigit(n: int): (c: char)
    requires 0 <= n < 16
    ensures c != '-' && c != '_'
  {
    if n < 10 then ('0' as int + n) as char else ('a' as int + n - 10) as char
  }

  /** The nibble a lower-case hex digit stands for. */
  function HexValue(c: char): int
  {
    if '0' <= c <= '9' then c as int - '0' as int else c as int - 'a' as int + 10
  }

  lemma HexValueOfDigit(n: int)
    requires 0 <= n < 16
    ensures HexValue(HexDigit(n)) == n
  {
  }

  /** A byte as two lower-case hex digits, high nibble first. */
  function HexPair(b: Byte): string
  {
    [HexDigit(b as int / 16), HexDigit(b as int % 16)]
  }

  /** The separator that follows byte `k`: after bytes 3, 5, 7 and 9. */
  function SepAfter(k: nat, sep: char): string
  {
    if k == 3 || k == 5 || k == 7 || k == 9 then [sep] else []
  }

  /** Bytes `k..` of `u` as hex pairs, with `sep` after bytes 3, 5, 7 and 9. */
  function TextFrom(u: UUID, k: nat, sep: char): string
    requires k <= 16
    decreases 16 - k
  {
    if k == 16 then "" else HexPair(u[k]) + SepAfter(k, sep) + TextFrom(u, k + 1, sep)
  }

  /** `uuid.UUID.String()`: the canonical text with hyphens. */
  function UuidString(u: UUID): string
  {
    TextFrom(u, 0, '-')
  }

  /** Two digits determine the byte. */
  lemma HexPairInjective(a: Byte, b: Byte)
    requires HexPair(a) == HexPair(b)
    ensures a == b
  {
    var x, y := a as int, b as int;
    assert HexPair(a)[0] == HexPair(b)[0] && HexPair(a)[1] == HexPair(b)[1];
    HexValueOfDigit(x / 16);
    HexValueOfDigit(y / 16);
    HexValueOfDigit(x % 16);
    HexValueOfDigit(y % 16);
  }

  /** Equal concatenations with equally long fronts have equal fronts and backs. */
  lemma SplitEqual(x1: string, y1: string, x2: string, y2: string)
    requires x1 + y1 == x2 + y2 && |x1| == |x2|
    ensures x1 == x2 && y1 == y2
  {
    assert x1 == (x1 + y1)[..|x1|];
    assert x2 == (x2 + y2)[..|x2|];
    assert y1 == (x1 + y1)[|x1|..];
    assert y2 == (x2 + y2)[|x2|..];
  }

  /** The text from byte `k` on determines bytes `k..` (whatever the separator). */
  lemma {:induction false} TextFromInjective(u: UUID, v: UUID, k: nat, sep: char)
    requires k <= 16
    requires TextFrom(u, k, sep) == TextFrom(v, k, sep)
    ensures u[k..] == v[k..]
    decreases 16 - k
  {
    if k < 16 {
      SplitEqual(HexPair(u[k]) + SepAfter(k, sep), TextFrom(u, k + 1, sep),
                 HexPair(v[k]) + SepAfter(k, sep), TextFrom(v, k + 1, sep));
      SplitEqual(HexPair(u[k]), SepAfter(k, sep), HexPair(v[k]), SepAfter(k, sep));
      HexPairInjective(u[k], v[k]);
      TextFromInjective(u, v, k + 1, sep);
      assert u[k..] == [u[k]] + u[k + 1..];
      assert v[k..] == [v[k]] + v[k + 1..];
    }
  }
}
