/** The chunked copy loops of the upload and the download: `read(buf)` until end of stream. */
module Streams {
  import opened Hosts

  function Min(a: nat, b: nat): nat { if a < b then a else b }

  function Flatten(chunks: seq<seq<byte>>): seq<byte>
  {
    if chunks == [] then [] else Flatten(chunks[..|chunks| - 1]) + chunks[|chunks| - 1]
  }

  /**
   * The value of the k-th `read(buf)` on a stream with `remaining` bytes left: -1 at end of
   * stream, otherwise the requested length of the k-th short read while `lengths` lasts and a
   * full buffer after it, never more than the buffer or what is left (possibly 0).
   */
  function ReadResult(lengths: seq<nat>, k: nat, bufSize: nat, remaining: nat): int
  {
    if remaining == 0 then -1
    else Min(Min(if k < |lengths| then lengths[k] else bufSize, bufSize), remaining)
  }

  /**
   * Copy `data` through a buffer of `bufSize` bytes. Returns the `write` calls in order:
   * each is non-empty and fits the buffer, and together they are exactly `data`.
   */
  method Copy(data: seq<byte>, lengths: seq<nat>, bufSize: nat) returns (writes: seq<seq<byte>>)
    requires bufSize > 0
    ensures Flatten(writes) == data
    ensures forall i :: 0 <= i < |writes| ==> 0 < |writes[i]| <= bufSize
  {
    var buf := new byte[bufSize];
    var pos, k := 0, 0;
    writes := [];
    var c := ReadResult(lengths, k, bufSize, |data|);
    while c >= 0
      invariant 0 <= pos <= |data|
      invariant c == ReadResult(lengths, k, bufSize, |data| - pos)
      invariant Flatten(writes) == data[..pos]
      invariant forall i :: 0 <= i < |writes| ==> 0 < |writes[i]| <= bufSize
      decreases if k < |lengths| then |lengths| - k else 0, |data| - pos
    {
      forall j | 0 <= j < c {
        buf[j] := data[pos + j];
      }
      if c > 0 {
        assert buf[..c] == data[pos..pos + c];
        writes := writes + [buf[..c]];
        assert data[..pos + c] == data[..pos] + data[pos..pos + c];
      }
      pos, k := pos + c, k + 1;
      c := ReadResult(lengths, k, bufSize, |data| - pos);
    }
    assert data[..pos] == data;
  }
}
