/** The keyspace namer of cache/redisCache.go: every key of a cache named
    `name` is built from `name`, a category and discriminators, joined by ':'. */
module CacheKeys {
  import opened Uuid
  import Bytes
  import Pagination
  import Framing

  /** The system flag names. */
  const CacheValidFlagKey: string := "CACHE_VALID"
  const MutexLockFlagKey: string := "MUTEX_LOCK"

  /** The prefix every key of the cache starts with. */
  function Scope(name: string): string
  {
    name + ":"
  }

  /** The key lies in the cache's keyspace. */
  predicate InScope(name: string, key: string)
  {
    Scope(name) <= key
  }

  /** `strings.ReplaceAll` with a one-character pattern and replacement. */
  function ReplaceAll(s: string, from: char, to: char): (r: string)
    ensures |r| == |s|
    ensures forall i :: 0 <= i < |s| ==> r[i] == if s[i] == from then to else s[i]
  {
    if s == [] then [] else [if s[0] == from then to else s[0]] + ReplaceAll(s[1..], from, to)
  }

  /** The canonical UUID text with every '-' replaced by '_'. */
  function GuidToString(id: UUID): (r: string)
    ensures r == TextFrom(id, 0, '_')
  {
    GuidTextReplaced(id, 0);
    ReplaceAll(UuidString(id), '-', '_')
  }

  /** The identifier part of a key holds no '-'. */
  lemma GuidHasNoDash(id: UUID)
    ensures '-' !in GuidToString(id)
  {
    ReplaceAllRemoves(UuidString(id), '-', '_');
  }

  /** After the replacement the pattern character no longer occurs. */
  lemma ReplaceAllRemoves(s: string, from: char, to: char)
    requires from != to
    ensures from !in ReplaceAll(s, from, to)
  {
    var r := ReplaceAll(s, from, to);
    forall i | 0 <= i < |r| ensures r[i] != from {
    }
  }

  /** `fmt`'s `%d`: optional minus sign, then decimal digits. */
  function DecimalString(n: int): string
  {
    if n < 0 then "-" + Digits(-n) else Digits(n)
  }

  function Digits(n: nat): string
  {
    if n < 10 then [('0' as int + n) as char] else Digits(n / 10) + [('0' as int + n % 10) as char]
  }

  function KeyForAll(name: string): (key: string)
    ensures InScope(name, key)
  {
    name + ":ALL"
  }

  function KeyForOne(name: string, id: UUID): (key: string)
    ensures InScope(name, key)
  {
    Scope(name) + ("ONE:" + GuidToString(id))
  }

  function KeyForPage(name: string, page: Pagination.PaginatedQuery): (key: string)
    ensures InScope(name, key)
  {
    name + ":PAGE:" + DecimalString(page.pageSize) + "|" + DecimalString(page.page)
      + "|" + page.direction + "|" + page.sort
  }

  function KeyForCustomPage(name: string, page: Pagination.PaginatedQuery, customKey: string): (key: string)
    ensures InScope(name, key)
    ensures KeyForPage(name, page) + ":" <= key
    ensures key[|KeyForPage(name, page)| + 1..] == customKey
  {
    KeyForPage(name, page) + ":" + customKey
  }

  function KeyForCustom(name: string, customKey: string): (key: string)
    ensures InScope(name, key)
    ensures key[|name| + 1..] == customKey
  {
    name + ":" + customKey
  }

  /** The custom name followed by the values joined with '|'. */
  function KeyForValuedCustom(name: string, customName: string, values: seq<string>): (key: string)
    ensures InScope(name, key)
    ensures |values| >= 1 ==> |key| == |name| + |customName| + 2 + Framing.SumLengths(values) + |values| - 1
  {
    if |values| >= 1 then Framing.JoinLength(values, "|"); name + ":" + customName + ":" + Framing.Join(values, "|")
    else name + ":" + customName + ":"
  }

  /** The key that remembers a missing item; never the collection key. */
  function KeyForNotFound(name: string): (key: string)
    ensures InScope(name, key)
    ensures key != KeyForAll(name)
  {
    name + ":NOT_FOUND"
  }

  function KeyForSystem(name: string, key: string): (r: string)
    ensures InScope(name, r)
    ensures r[|name| + 1..] == "SYS:" + key
  {
    name + ":SYS:" + key
  }

  /** The key of the validity flag of the multiserver mode. */
  function ValidFlagKey(name: string): string
  {
    KeyForSystem(name, CacheValidFlagKey)
  }

  /** The key of the refresh lock (lease) of the multiserver mode. */
  function LockFlagKey(name: string): string
  {
    KeyForSystem(name, MutexLockFlagKey)
  }

  /** The two system flags are different keys. */
  lemma SystemFlagsDistinct(name: string)
    ensures ValidFlagKey(name) != LockFlagKey(name)
  {
    assert |ValidFlagKey(name)| != |LockFlagKey(name)|;
  }

  /** Replacing in a concatenation replaces in each part. */
  lemma ReplaceAllConcat(a: string, b: string, from: char, to: char)
    ensures ReplaceAll(a + b, from, to) == ReplaceAll(a, from, to) + ReplaceAll(b, from, to)
  {
    var l, r := ReplaceAll(a + b, from, to), ReplaceAll(a, from, to) + ReplaceAll(b, from, to);
    assert |l| == |r|;
    forall i | 0 <= i < |l| ensures l[i] == r[i] {
      if i < |a| {
        assert (a + b)[i] == a[i];
      } else {
        assert (a + b)[i] == b[i - |a|];
      }
    }
  }

  /** Replacing '-' by '_' in the canonical text from byte `k` gives the text
      with '_' as separator. */
  lemma {:induction false} GuidTextReplaced(id: UUID, k: nat)
    requires k <= 16
    ensures ReplaceAll(TextFrom(id, k, '-'), '-', '_') == TextFrom(id, k, '_')
    decreases 16 - k
  {
    if k < 16 {
      var pair, rest := HexPair(id[k]), TextFrom(id, k + 1, '-');
      assert TextFrom(id, k, '-') == pair + SepAfter(k, '-') + rest;
      ReplaceAllConcat(pair + SepAfter(k, '-'), rest, '-', '_');
      ReplaceAllConcat(pair, SepAfter(k, '-'), '-', '_');
      PairUnchanged(id[k]);
      SeparatorReplaced(k);
      GuidTextReplaced(id, k + 1);
    }
  }

  /** Hex digits are left alone. */
  lemma PairUnchanged(b: Bytes.Byte)
    ensures ReplaceAll(HexPair(b), '-', '_') == HexPair(b)
  {
  }

  /** The separator after byte `k` turns from '-' into '_'. */
  lemma SeparatorReplaced(k: nat)
    ensures ReplaceAll(SepAfter(k, '-'), '-', '_') == SepAfter(k, '_')
  {
  }

  /** Different UUIDs give different entity keys: the key determines the UUID. */
  lemma KeyForOneInjective(name: string, a: UUID, b: UUID)
    requires KeyForOne(name, a) == KeyForOne(name, b)
    ensures a == b
  {
    var ga, gb := GuidToString(a), GuidToString(b);
    SplitEqual(Scope(name), "ONE:" + ga, Scope(name), "ONE:" + gb);
    SplitEqual("ONE:", ga, "ONE:", gb);
    TextFromInjective(a, b, 0, '_');
    assert a == a[0..] && b == b[0..];
  }

  /** The namer is not injective across categories: the custom key "ALL" is
      the key of the whole collection. */
  lemma CustomAllIsKeyForAll(name: string)
    ensures KeyForCustom(name, "ALL") == KeyForAll(name)
  {
  }

  /** The custom key "SYS:CACHE_VALID" is the validity flag: storing under it
      or deleting it changes the validity seen in multiserver mode. */
  lemma CustomSysIsValidFlag(name: string)
    ensures KeyForCustom(name, "SYS:" + CacheValidFlagKey) == ValidFlagKey(name)
  {
  }
}
