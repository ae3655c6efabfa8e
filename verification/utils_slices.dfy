/** The line-feed framing and range partitioning of utils/slices.go. */
module UtilsSlices {
  import opened Bytes
  import opened Wrappers
  import Framing

  /** The separator byte 0x0A. */
  const LineFeed: Byte := 0x0A

  /** `ErrSliceContainsLF`, wrapped together with the offending slice. */
  datatype SliceError = ErrSliceContainsLF(slice: seq<Byte>)

  /** `bytes.Join` with a single line feed as the separator; nothing is checked. */
  function JoinByteSlicesWithLF(byteSlices: seq<seq<Byte>>): (r: seq<Byte>)
    ensures |byteSlices| >= 1 ==> |r| == Framing.SumLengths(byteSlices) + |byteSlices| - 1
    ensures |byteSlices| == 0 ==> r == []
  {
    if |byteSlices| >= 1 then Framing.JoinLength(byteSlices, [LineFeed]); Framing.Join(byteSlices, [LineFeed])
    else []
  }

  /** Joins the slices with one line feed between neighbours, refusing (with an
      empty result) as soon as it meets a slice that already holds a line feed;
      the error names the first such slice. */
  method JoinSingleLineByteSlicesWithLF(byteSlices: seq<seq<Byte>>) returns (result: seq<Byte>, err: Option<SliceError>)
    ensures err.Some? <==> !Framing.NoneContains(byteSlices, LineFeed)
    ensures err.Some? ==> result == []
    ensures err.Some? ==> (exists k :: 0 <= k < |byteSlices| && err.value.slice == byteSlices[k]
                             && LineFeed in byteSlices[k] && Framing.NoneContains(byteSlices[..k], LineFeed))
    ensures err.None? ==> result == JoinByteSlicesWithLF(byteSlices)
  {
    result := [];
    var i := 0;
    while i < |byteSlices|
      invariant 0 <= i <= |byteSlices|
      invariant Framing.NoneContains(byteSlices[..i], LineFeed)
      invariant result == Framing.Join(byteSlices[..i], [LineFeed])
    {
      if LineFeed in byteSlices[i] {
        assert LineFeed in byteSlices[i] && Framing.NoneContains(byteSlices[..i], LineFeed);
        return [], Some(ErrSliceContainsLF(byteSlices[i]));
      }
      if i > 0 {
        result := result + [LineFeed];
      }
      result := result + byteSlices[i];
      assert byteSlices[..i + 1][..i] == byteSlices[..i];
      i := i + 1;
    }
    assert byteSlices[..i] == byteSlices;
    err := None;
  }

  /** `bytes.Split` on the line feed: one part more than there are line feeds,
      and no part holds one. */
  function SplitByteSliceByLF(oneDim: seq<Byte>): (parts: seq<seq<Byte>>)
    ensures |parts| == multiset(oneDim)[LineFeed] + 1
    ensures Framing.NoneContains(parts, LineFeed)
  {
    Framing.SplitCount(oneDim, LineFeed);
    Framing.SplitPartsFree(oneDim, LineFeed);
    Framing.Split(oneDim, LineFeed)
  }

  /** Splitting undoes joining for a non-empty list of single-line slices. */
  lemma SplitJoinSingleLine(byteSlices: seq<seq<Byte>>)
    requires |byteSlices| >= 1
    requires Framing.NoneContains(byteSlices, LineFeed)
    ensures SplitByteSliceByLF(JoinByteSlicesWithLF(byteSlices)) == byteSlices
  {
    Framing.SplitJoin(byteSlices, LineFeed);
  }

  /** Joining undoes splitting, for every input. */
  lemma JoinSplitByLF(oneDim: seq<Byte>)
    ensures JoinByteSlicesWithLF(SplitByteSliceByLF(oneDim)) == oneDim
  {
    Framing.JoinSplit(oneDim, LineFeed);
  }

  /** `strings.Join` of the enum values (each enum value is its string) with the
      separator: length is all values plus one separator per gap. */
  function JoinEnumsAsString(enumList: seq<string>, separator: string): (r: string)
    ensures |enumList| >= 1 ==> |r| == Framing.SumLengths(enumList) + (|enumList| - 1) * |separator|
    ensures |enumList| == 1 ==> r == enumList[0]
    ensures |enumList| == 0 ==> r == ""
  {
    if |enumList| >= 1 then Framing.JoinLength(enumList, separator); Framing.Join(enumList, separator)
    else ""
  }

  /** The values appear in their order: joining two non-empty lists puts
      exactly one separator between the two joined halves. */
  lemma JoinEnumsInOrder(front: seq<string>, back: seq<string>, separator: string)
    requires |front| >= 1 && |back| >= 1
    ensures JoinEnumsAsString(front + back, separator)
         == JoinEnumsAsString(front, separator) + separator + JoinEnumsAsString(back, separator)
  {
    Framing.JoinConcat(front, back, separator);
  }

  /** A half-open range `[low, high)` handed to the partition consumer. */
  datatype Range = Range(low: int, high: int)

  /** The ranges Partition hands out, in order: `totalLength / partitionLength`
      full ranges, then the remainder range when there is a remainder. */
  function Partitions(totalLength: int, partitionLength: int): (rs: seq<Range>)
    ensures partitionLength <= 0 || totalLength <= 0 ==> rs == []
  {
    if partitionLength <= 0 || totalLength <= 0 then []
    else
      var q := totalLength / partitionLength;
      var rest := totalLength % partitionLength;
      seq(q, k => Range(k * partitionLength, k * partitionLength + partitionLength))
        + (if rest != 0 then [Range(q * partitionLength, q * partitionLength + rest)] else [])
  }

  /** The ranges tile `[0, totalLength)`: the first starts at 0, each starts
      where the previous ended, the last ends at `totalLength`; every range has
      width `partitionLength` except a final remainder of `totalLength % partitionLength`. */
  lemma PartitionsTile(totalLength: int, partitionLength: int)
    requires totalLength > 0 && partitionLength > 0
    ensures var rs := Partitions(totalLength, partitionLength);
      && |rs| >= 1
      && rs[0].low == 0
      && rs[|rs| - 1].high == totalLength
      && (forall k :: 0 <= k < |rs| - 1 ==> rs[k].high == rs[k + 1].low)
      && (forall k :: 0 <= k < |rs| - 1 ==> rs[k].high - rs[k].low == partitionLength)
      && rs[|rs| - 1].high - rs[|rs| - 1].low
         == (if totalLength % partitionLength == 0 then partitionLength else totalLength % partitionLength)
  {
    var rs := Partitions(totalLength, partitionLength);
    PartitionsEnds(totalLength, partitionLength);
    forall k | 0 <= k < |rs| - 1
      ensures rs[k].high == rs[k + 1].low && rs[k].high - rs[k].low == partitionLength
    {
      PartitionsAdjacent(totalLength, partitionLength, k);
    }
  }

  /** The ranges `Partitions` builds: full ranges, then the remainder. */
  lemma PartitionsShape(totalLength: int, partitionLength: int)
    requires totalLength > 0 && partitionLength > 0
    ensures var p, q, rest := partitionLength, totalLength / partitionLength, totalLength % partitionLength;
      var rs := Partitions(totalLength, p);
      && totalLength == q * p + rest
      && |rs| == q + (if rest != 0 then 1 else 0)
      && (forall k :: 0 <= k < q ==> rs[k] == Range(k * p, k * p + p))
      && (rest != 0 ==> rs[q] == Range(q * p, q * p + rest))
  {
  }

  /** A range other than the last has full width and ends where the next
      starts. */
  lemma PartitionsAdjacent(totalLength: int, partitionLength: int, k: nat)
    requires totalLength > 0 && partitionLength > 0
    requires k < |Partitions(totalLength, partitionLength)| - 1
    ensures var rs := Partitions(totalLength, partitionLength);
      rs[k].high == rs[k + 1].low && rs[k].high - rs[k].low == partitionLength
  {
    PartitionsShape(totalLength, partitionLength);
    NextMultiple(k, partitionLength);
  }

  /** The first range starts at 0 and the last ends at `totalLength`, with
      the remainder as its width when there is one. */
  lemma PartitionsEnds(totalLength: int, partitionLength: int)
    requires totalLength > 0 && partitionLength > 0
    ensures var rs := Partitions(totalLength, partitionLength);
      && |rs| >= 1
      && rs[0].low == 0
      && rs[|rs| - 1].high == totalLength
      && rs[|rs| - 1].high - rs[|rs| - 1].low
         == (if totalLength % partitionLength == 0 then partitionLength else totalLength % partitionLength)
  {
    PartitionsShape(totalLength, partitionLength);
    var q := totalLength / partitionLength;
    if totalLength % partitionLength == 0 {
      NextMultiple(q - 1, partitionLength);
    }
  }

  /** The multiple after `k` times `n`. */
  lemma NextMultiple(k: int, n: int)
    ensures k * n + n == (k + 1) * n
  {
  }

  /** There are as many ranges as pages of `partitionLength` are needed to
      hold `totalLength` items: the rounded-up quotient. */
  lemma PartitionsCount(totalLength: int, partitionLength: int)
    requires totalLength > 0 && partitionLength > 0
    ensures var n := |Partitions(totalLength, partitionLength)|;
      (n - 1) * partitionLength < totalLength <= n * partitionLength
  {
    var q := totalLength / partitionLength;
    var rest := totalLength % partitionLength;
    assert totalLength == q * partitionLength + rest;
    assert |Partitions(totalLength, partitionLength)| == q + if rest != 0 then 1 else 0;
  }

  /** Hands the consumer the ranges of `Partitions` in order and stops at the
      first error, which it returns; `calls` is the sequence of ranges the
      consumer received. */
  method Partition<E>(totalLength: int, partitionLength: int, consumer: (int, int) -> Option<E>)
    returns (err: Option<E>, calls: seq<Range>)
    ensures calls <= Partitions(totalLength, partitionLength)
    ensures forall k :: 0 <= k < |calls| - 1 ==> consumer(calls[k].low, calls[k].high).None?
    ensures err == if |calls| == 0 then None else consumer(calls[|calls| - 1].low, calls[|calls| - 1].high)
    ensures err.None? ==> calls == Partitions(totalLength, partitionLength)
  {
    calls := [];
    if partitionLength <= 0 || totalLength <= 0 {
      return None, calls;
    }
    var partitions := totalLength / partitionLength;
    ghost var all := Partitions(totalLength, partitionLength);
    var i := 0;
    err := None;
    while i < partitions
      invariant 0 <= i <= partitions
      invariant calls == all[..i]
      invariant forall k :: 0 <= k < i ==> consumer(calls[k].low, calls[k].high).None?
      invariant err == if i == 0 then None else consumer(calls[i - 1].low, calls[i - 1].high)
    {
      calls := calls + [Range(i * partitionLength, i * partitionLength + partitionLength)];
      err := consumer(i * partitionLength, i * partitionLength + partitionLength);
      if err.Some? {
        return;
      }
      i := i + 1;
    }
    var rest := totalLength % partitionLength;
    if rest != 0 {
      calls := calls + [Range(i * partitionLength, i * partitionLength + rest)];
      err := consumer(i * partitionLength, i * partitionLength + rest);
      if err.Some? {
        return;
      }
    }
    assert calls == all;
  }
}
