/** Bytes, and unsigned integers as memcpy leaves them on a little-endian host. */
module Bytes {

  type Byte = x: int | 0 <= x < 256

  /** struct hg_bulk_segment: an address and a number of bytes. */
  datatype Segment = Segment(base: nat, len: nat)

  function TotalLen(segs: seq<Segment>): nat
  {
    if segs == [] then 0 else segs[0].len + TotalLen(segs[1..])
  }

  datatype Option<T> = None | Some(value: T)

  function Pow256(w: nat): (r: nat)
    ensures r > 0
  {
    if w == 0 then 1 else 256 * Pow256(w - 1)
  }

  function Encode(n: nat, w: nat): (r: seq<Byte>)
    ensures |r| == w
  {
    if w == 0 then [] else [n % 256] + Encode(n / 256, w - 1)
  }

  function Decode(bs: seq<Byte>): nat
  {
    if bs == [] then 0 else bs[0] + 256 * Decode(bs[1..])
  }

  lemma {:induction false} DecodeEncode(n: nat, w: nat)
    requires n < Pow256(w)
    ensures Decode(Encode(n, w)) == n
    decreases w
  {
    if w > 0 {
      DecodeEncode(n / 256, w - 1);
      assert Encode(n, w)[1..] == Encode(n / 256, w - 1);
    }
  }

  lemma {:induction false} EncodeDecode(bs: seq<Byte>)
    ensures Decode(bs) < Pow256(|bs|) && Encode(Decode(bs), |bs|) == bs
  {
    if bs != [] {
      EncodeDecode(bs[1..]);
      assert (bs[0] + 256 * Decode(bs[1..])) / 256 == Decode(bs[1..]);
    }
  }

  function Concat(items: seq<seq<Byte>>): seq<Byte>
  {
    if items == [] then [] else items[0] + Concat(items[1..])
  }
}
