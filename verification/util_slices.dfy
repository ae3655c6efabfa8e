/** The NUL-separated framing of util/slices.go: rows of bytes packed into one
    message with a 0x00 between neighbours, and unpacked again. */
module UtilSlices {
  import opened Bytes
  import opened Wrappers
  import Framing

  /** The separator byte 0x00. */
  const Nul: Byte := 0

  /** "message contains invalid characters": a row holds the separator. */
  datatype ConvertError = ErrInvalidCharacters

  /** Linear search: true exactly when some element of `data` equals `search`. */
  method SliceContains<V(==)>(search: V, data: seq<V>) returns (found: bool)
    ensures found <==> search in data
  {
    var i := 0;
    while i < |data|
      invariant 0 <= i <= |data|
      invariant search !in data[..i]
    {
      if data[i] == search {
        return true;
      }
      assert data[..i + 1] == data[..i] + [data[i]];
      i := i + 1;
    }
    assert data[..i] == data;
    return false;
  }

  /** Packs the rows with one NUL between neighbours; a row holding a NUL makes
      the result empty and an error. */
  method ConvertBytes2Dto1D(twoDim: seq<seq<Byte>>) returns (result: seq<Byte>, err: Option<ConvertError>)
    ensures err.Some? <==> !Framing.NoneContains(twoDim, Nul)
    ensures err.Some? ==> result == []
    ensures err.None? ==> result == Framing.Join(twoDim, [Nul])
  {
    result := [];
    var i := 0;
    while i < |twoDim|
      invariant 0 <= i <= |twoDim|
      invariant Framing.NoneContains(twoDim[..i], Nul)
      invariant result == Framing.Join(twoDim[..i], [Nul])
    {
      var row := twoDim[i];
      var bad := SliceContains(Nul, row);
      if bad {
        return [], Some(ErrInvalidCharacters);
      }
      if i > 0 {
        result := result + [Nul];
      }
      result := result + row;
      assert twoDim[..i + 1][..i] == twoDim[..i];
      i := i + 1;
    }
    assert twoDim[..i] == twoDim;
    err := None;
  }

  /** The rows of a packed message: the parts between NULs, except that an empty
      part after the last NUL (or the single empty part of an empty message) is
      not a row. */
  function Rows(oneDim: seq<Byte>): (rows: seq<seq<Byte>>)
    ensures Framing.NoneContains(rows, Nul)
    ensures oneDim == [] ==> rows == []
  {
    Framing.SplitPartsFree(oneDim, Nul);
    var parts := Framing.Split(oneDim, Nul);
    if parts[|parts| - 1] == [] then parts[..|parts| - 1] else parts
  }

  /** Unpacks a message by scanning for NULs: each NUL closes a row, and what
      follows the last NUL is a row only if it is not empty. */
  method ConvertBytes1Dto2D(oneDim: seq<Byte>) returns (result: seq<seq<Byte>>)
    ensures result == Rows(oneDim)
  {
    result := [];
    var startByte := 0;
    var i := 0;
    while i < |oneDim|
      invariant 0 <= startByte <= i <= |oneDim|
      invariant Framing.Split(oneDim[..i], Nul) == result + [oneDim[startByte..i]]
    {
      UnpackStep(oneDim, i, startByte, result);
      if oneDim[i] == 0 {
        result := result + [oneDim[startByte..i]];
        startByte := i + 1;
      }
      i := i + 1;
    }
    assert oneDim[..i] == oneDim;
    RowsOfSplit(oneDim, result, oneDim[startByte..]);
    if startByte < |oneDim| {
      result := result + [oneDim[startByte..]];
    }
  }

  /** One step of the unpacking scan: a NUL closes the open row and opens an
      empty one, any other byte extends the open row. */
  lemma UnpackStep(oneDim: seq<Byte>, i: nat, start: nat, closed: seq<seq<Byte>>)
    requires start <= i < |oneDim|
    requires Framing.Split(oneDim[..i], Nul) == closed + [oneDim[start..i]]
    ensures oneDim[i] == Nul ==>
      Framing.Split(oneDim[..i + 1], Nul) == closed + [oneDim[start..i]] + [oneDim[i + 1..i + 1]]
    ensures oneDim[i] != Nul ==> Framing.Split(oneDim[..i + 1], Nul) == closed + [oneDim[start..i + 1]]
  {
    assert oneDim[..i + 1] == oneDim[..i] + [oneDim[i]];
    Framing.SplitStep(oneDim[..i], oneDim[i], Nul, closed, oneDim[start..i]);
    assert oneDim[i + 1..i + 1] == [];
    assert oneDim[start..i + 1] == oneDim[start..i] + [oneDim[i]];
  }

  /** The rows of a message whose split is known as finished parts and a last
      part. */
  lemma RowsOfSplit(oneDim: seq<Byte>, closed: seq<seq<Byte>>, last: seq<Byte>)
    requires Framing.Split(oneDim, Nul) == closed + [last]
    ensures Rows(oneDim) == if last == [] then closed else closed + [last]
  {
    var parts := closed + [last];
    assert parts[..|parts| - 1] == closed;
  }

  /** An empty message has no rows; otherwise there is one row per NUL, plus one
      more when the message does not end in a NUL. */
  lemma RowsCount(oneDim: seq<Byte>)
    ensures |Rows(oneDim)| == multiset(oneDim)[Nul] + (if oneDim == [] || oneDim[|oneDim| - 1] == Nul then 0 else 1)
  {
    Framing.SplitCount(oneDim, Nul);
    LastPartEmpty(oneDim);
  }

  /** The last part of a split is empty exactly when the input is empty or ends
      in the separator. */
  lemma LastPartEmpty(oneDim: seq<Byte>)
    ensures var parts := Framing.Split(oneDim, Nul);
      parts[|parts| - 1] == [] <==> (oneDim == [] || oneDim[|oneDim| - 1] == Nul)
  {
  }

  /** Unpacking undoes packing when no row holds a NUL and the last row (if
      any) is not empty. */
  lemma RowsOfPacked(twoDim: seq<seq<Byte>>)
    requires Framing.NoneContains(twoDim, Nul)
    requires twoDim == [] || twoDim[|twoDim| - 1] != []
    ensures Rows(Framing.Join(twoDim, [Nul])) == twoDim
  {
    if twoDim != [] {
      Framing.SplitJoin(twoDim, Nul);
    }
  }

  /** A trailing empty row does not survive the round trip: packing and
      unpacking drops it (and only it). */
  lemma RowsOfPackedDropsTrailingEmptyRow(twoDim: seq<seq<Byte>>)
    requires Framing.NoneContains(twoDim, Nul)
    requires twoDim != [] && twoDim[|twoDim| - 1] == []
    ensures Rows(Framing.Join(twoDim, [Nul])) == twoDim[..|twoDim| - 1]
  {
    Framing.SplitJoin(twoDim, Nul);
  }

  /** Packing the rows of a message gives the message back, unless the message
      ends in a NUL (that NUL closes a row that is then lost). */
  lemma PackedRows(oneDim: seq<Byte>)
    requires oneDim == [] || oneDim[|oneDim| - 1] != Nul
    ensures Framing.Join(Rows(oneDim), [Nul]) == oneDim
  {
    LastPartEmpty(oneDim);
    Framing.JoinSplit(oneDim, Nul);
  }
}
