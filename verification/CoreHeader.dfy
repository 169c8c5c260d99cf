/**
 The request and response headers of src/mercury_core_header.c without
 checksums: the byte-order macros on hosts of either byte order, the two codecs
 and the check of a received request.
 */
module CoreHeader {
  import opened Bytes

  // -------------------------------------------------------------- byte order

  function Reversed(bs: seq<Byte>): (r: seq<Byte>)
    ensures |r| == |bs|
  {
    if bs == [] then [] else Reversed(bs[1..]) + [bs[0]]
  }

  /** What memcpy of a `w`-byte integer yields on a host of the given byte order. */
  function Stored(n: nat, w: nat, big: bool): (r: seq<Byte>)
    ensures |r| == w
  {
    if big then Reversed(Encode(n, w)) else Encode(n, w)
  }

  function Loaded(bs: seq<Byte>, big: bool): nat
  {
    if big then Decode(Reversed(bs)) else Decode(bs)
  }

  /** htons and htonl, which are also ntohs and ntohl. */
  function Swapped(n: nat, w: nat, big: bool): nat
  {
    if big then n else Decode(Reversed(Encode(n, w)))
  }

  const HALF: nat := 0x1_0000_0000

  /** hg_core_header_proc_hg_uint64_t_enc and _dec (lines 32-37), which are one and the same. */
  function Swapped64(x: nat, big: bool): nat
  {
    Swapped(x % HALF, 4, big) * HALF + Swapped(x / HALF, 4, big)
  }

  function Put16(x: nat, big: bool): seq<Byte>
  {
    Stored(Swapped(x, 2, big), 2, big)
  }

  function Get16(bs: seq<Byte>, big: bool): nat
    requires |bs| == 2
  {
    Swapped(Loaded(bs, big), 2, big)
  }

  function Put64(x: nat, big: bool): seq<Byte>
  {
    Stored(Swapped64(x, big), 8, big)
  }

  function Get64(bs: seq<Byte>, big: bool): nat
    requires |bs| == 8
  {
    Swapped64(Loaded(bs, big), big)
  }

  lemma {:induction false} ReversedSplit(a: seq<Byte>, b: seq<Byte>)
    ensures Reversed(a + b) == Reversed(b) + Reversed(a)
  {
    if a == [] {
      assert a + b == b && Reversed(b) + [] == Reversed(b);
    } else {
      assert (a + b)[1..] == a[1..] + b;
      ReversedSplit(a[1..], b);
    }
  }

  lemma {:induction false} ReversedTwice(a: seq<Byte>)
    ensures Reversed(Reversed(a)) == a
  {
    if a != [] {
      ReversedTwice(a[1..]);
      ReversedSplit(Reversed(a[1..]), [a[0]]);
      assert Reversed([a[0]]) == [a[0]];
    }
  }

  lemma HalfIsPow()
    ensures HALF == Pow256(4) && HALF * HALF == Pow256(8)
  {
    assert Pow256(2) == 65536;
    assert Pow256(4) == 65536 * Pow256(2);
    assert Pow256(6) == 65536 * Pow256(4);
    assert Pow256(8) == 65536 * Pow256(6);
  }

  lemma LowByte(a: nat, m: nat)
    ensures (a + 256 * m) % 256 == a % 256 && (a + 256 * m) / 256 == a / 256 + m
  {
  }

  lemma {:induction false} EncodeSplit(a: nat, b: nat, w: nat, v: nat)
    requires a < Pow256(w)
    ensures Encode(a + Pow256(w) * b, w + v) == Encode(a, w) + Encode(b, v)
    decreases w
  {
    if w == 0 {
      assert Pow256(0) * b == b;
    } else {
      var p := Pow256(w - 1);
      assert Pow256(w) * b == 256 * (p * b);
      LowByte(a, p * b);
      EncodeSplit(a / 256, b, w - 1, v);
      EncodeFirst(a, a + Pow256(w) * b, w, w + v, Encode(b, v));
    }
  }

  /** Two numbers with the same low byte encode alike if the rest of them does. */
  lemma EncodeFirst(a: nat, n: nat, w: nat, u: nat, more: seq<Byte>)
    requires w > 0 && u > 0 && n % 256 == a % 256 && Encode(n / 256, u - 1) == Encode(a / 256, w - 1) + more
    ensures Encode(n, u) == Encode(a, w) + more
  {
    assert [a % 256] + (Encode(a / 256, w - 1) + more) == ([a % 256] + Encode(a / 256, w - 1)) + more;
  }

  lemma {:induction false} DecodeSplit(a: seq<Byte>, b: seq<Byte>)
    ensures Decode(a + b) == Decode(a) + Pow256(|a|) * Decode(b)
  {
    if a == [] {
      assert a + b == b;
    } else {
      assert (a + b)[1..] == a[1..] + b;
      DecodeSplit(a[1..], b);
      assert 256 * (Pow256(|a| - 1) * Decode(b)) == Pow256(|a|) * Decode(b);
    }
  }

  /** A swapped word is stored most significant byte first, on either host. */
  lemma NetworkOrder(n: nat, w: nat, big: bool)
    requires n < Pow256(w)
    ensures Swapped(n, w, big) < Pow256(w)
    ensures Stored(Swapped(n, w, big), w, big) == Reversed(Encode(n, w))
    ensures Swapped(Loaded(Reversed(Encode(n, w)), big), w, big) == n
  {
    EncodeDecode(Reversed(Encode(n, w)));
    ReversedTwice(Encode(n, w));
    DecodeEncode(n, w);
  }

  /** 16-bit fields mean the same on all hosts. */
  lemma RoundTrip16(x: nat, here: bool, there: bool)
    requires x < Pow256(2)
    ensures Get16(Put16(x, here), there) == x
  {
    NetworkOrder(x, 2, here);
    NetworkOrder(x, 2, there);
  }

  /** The four bytes of a half, most significant first. */
  function Half(n: nat): (r: seq<Byte>)
    ensures |r| == 4
  {
    Reversed(Encode(n, 4))
  }

  /** A little-endian host sends the high half first, a big-endian host the low half. */
  lemma Wire64(x: nat, big: bool)
    requires x < Pow256(8)
    ensures Put64(x, big) == (if big then Half(x % HALF) + Half(x / HALF) else Half(x / HALF) + Half(x % HALF))
  {
    HalfIsPow();
    var lo, hi := x % HALF, x / HALF;
    NetworkOrder(lo, 4, big);
    NetworkOrder(hi, 4, big);
    EncodeSplit(Swapped(hi, 4, big), Swapped(lo, 4, big), 4, 4);
    assert Encode(Swapped64(x, big), 8) == Encode(Swapped(hi, 4, big), 4) + Encode(Swapped(lo, 4, big), 4);
    ReversedSplit(Encode(Swapped(hi, 4, big), 4), Encode(Swapped(lo, 4, big), 4));
  }

  /** Reading two halves: the first is the high one on a little-endian host, the low one on a big-endian host. */
  lemma Read64(a: nat, b: nat, big: bool)
    requires a < HALF && b < HALF
    ensures Get64(Half(a) + Half(b), big) == (if big then b * HALF + a else a * HALF + b)
  {
    HalfIsPow();
    NetworkOrder(a, 4, big);
    NetworkOrder(b, 4, big);
    LoadedHalves(a, b, big);
    if big {
      Halves(a, b);
    } else {
      EncodeDecode(Half(a));
      Halves(Decode(Half(b)), Decode(Half(a)));
    }
  }

  lemma LoadedHalves(a: nat, b: nat, big: bool)
    requires a < HALF && b < HALF
    ensures Loaded(Half(a) + Half(b), big) == (if big then b + HALF * a else Decode(Half(a)) + HALF * Decode(Half(b)))
  {
    HalfIsPow();
    if big {
      ReversedSplit(Half(a), Half(b));
      ReversedTwice(Encode(a, 4));
      ReversedTwice(Encode(b, 4));
      DecodeSplit(Encode(b, 4), Encode(a, 4));
      DecodeEncode(a, 4);
      DecodeEncode(b, 4);
    } else {
      DecodeSplit(Half(a), Half(b));
    }
  }

  lemma Halves(hi: nat, lo: nat)
    requires lo < HALF
    ensures (lo + HALF * hi) % HALF == lo && (lo + HALF * hi) / HALF == hi
  {
  }

  /** The RPC id arrives intact exactly when both hosts have the same byte order or its halves are equal. */
  lemma RoundTrip64Iff(x: nat, here: bool, there: bool)
    requires x < Pow256(8)
    ensures Get64(Put64(x, here), there) == x <==> here == there || x / HALF == x % HALF
  {
    HalfIsPow();
    var lo, hi := x % HALF, x / HALF;
    Wire64(x, here);
    if here {
      Read64(lo, hi, there);
    } else {
      Read64(hi, lo, there);
    }
    SwapsEqual(hi, lo);
  }

  /** RPC id 1 between hosts of different byte order arrives as 2^32. */
  lemma IdOneIsLost(here: bool)
    ensures Get64(Put64(1, here), !here) == HALF != 1
  {
    HalfIsPow();
    Wire64(1, here);
    if here {
      Read64(1, 0, false);
    } else {
      Read64(0, 1, true);
    }
  }

  lemma SwapsEqual(hi: nat, lo: nat)
    requires hi < HALF && lo < HALF
    ensures hi * HALF + lo == lo * HALF + hi <==> hi == lo
  {
    if hi * HALF + lo == lo * HALF + hi {
      Halves(hi, lo);
      Halves(lo, hi);
    }
  }

  // ------------------------------------------------------------------ headers

  const REQUEST_SIZE: nat := 12
  const RESPONSE_SIZE: nat := 12
  const PROTOCOL_VERSION: Byte := 5
  const IDENTIFIER: bv8 := 0xD7

  datatype Request = Request(hg: Byte, protocol: Byte, id: nat, flags: Byte, cookie: Byte)

  datatype Response = Response(retCode: int, flags: Byte, cookie: nat)

  function RequestBytes(h: Request, big: bool): (r: seq<Byte>)
    ensures |r| == REQUEST_SIZE
  {
    [h.hg, h.protocol] + Put64(h.id, big) + [h.flags, h.cookie]
  }

  /** hg_core_header_request_proc when decoding (178-234); HG_INVALID_ARG when the buffer is too small. */
  function ReadRequest(bs: seq<Byte>, big: bool): Option<Request>
  {
    if |bs| < REQUEST_SIZE then None else Some(Request(bs[0], bs[1], Get64(bs[2..10], big), bs[10], bs[11]))
  }

  /** A request header survives exactly as well as its RPC id. */
  lemma RequestRoundTripIff(h: Request, here: bool, there: bool, rest: seq<Byte>)
    requires h.id < Pow256(8)
    ensures ReadRequest(RequestBytes(h, here) + rest, there) == Some(h) <==> here == there || h.id / HALF == h.id % HALF
  {
    var bs := RequestBytes(h, here) + rest;
    assert bs[2..10] == Put64(h.id, here);
    RoundTrip64Iff(h.id, here, there);
  }

  /** hg_int8_t as a byte. */
  function SignedByte(x: int): Byte
    requires -128 <= x < 128
  {
    if x < 0 then x + 256 else x
  }

  function ByteSigned(b: Byte): int
  {
    if b < 128 then b else b - 256
  }

  /** Return code, flags and cookie; the pad that makes up the header's size is not written. */
  function ResponseBytes(h: Response, big: bool): (r: seq<Byte>)
    requires -128 <= h.retCode < 128
    ensures |r| == 4
  {
    [SignedByte(h.retCode), h.flags] + Put16(h.cookie, big)
  }

  /** hg_core_header_response_proc when decoding (239-289); HG_OVERFLOW when the buffer is smaller than the whole header. */
  function ReadResponse(bs: seq<Byte>, big: bool): Option<Response>
  {
    if |bs| < RESPONSE_SIZE then None else Some(Response(ByteSigned(bs[0]), bs[1], Get16(bs[2..4], big)))
  }

  /** A response header survives between any two hosts, and is refused exactly when the message ends inside its pad. */
  lemma ResponseRoundTrip(h: Response, here: bool, there: bool, rest: seq<Byte>)
    requires -128 <= h.retCode < 128 && h.cookie < Pow256(2)
    ensures ReadResponse(ResponseBytes(h, here) + rest, there) == if |rest| >= 8 then Some(h) else None
  {
    var bs := ResponseBytes(h, here) + rest;
    assert bs[2..4] == Put16(h.cookie, here);
    RoundTrip16(h.cookie, here, there);
  }

  // -------------------------------------------------------------- verification

  /** hg_core_header_request_verify (294-312): 'H' is 0x48 and 'G' is 0x47. */
  predicate Verified(hg: bv8, protocol: Byte)
  {
    (hg >> 1) & 0x48 == 0x48 && hg & 0x47 == 0x47 && protocol == PROTOCOL_VERSION
  }

  /** The check lets two bits of the identifier pass unseen: four values are accepted. */
  lemma VerifiedIff(hg: bv8, protocol: Byte)
    ensures Verified(hg, protocol) <==>
      protocol == PROTOCOL_VERSION && (hg == IDENTIFIER || hg == 0xDF || hg == 0xF7 || hg == 0xFF)
  {
  }

  // ----------------------------------------------------------- on the buffer

  /** hg_core_header_request_proc when encoding (178-234). */
  method ProcRequest(buf: array<Byte>, h: Request, big: bool) returns (ok: bool)
    modifies buf
    ensures ok <==> buf.Length >= REQUEST_SIZE
    ensures ok ==> buf[..REQUEST_SIZE] == RequestBytes(h, big)
    ensures ok ==> buf[REQUEST_SIZE..] == old(buf[REQUEST_SIZE..])
    ensures !ok ==> buf[..] == old(buf[..])
  {
    ok := buf.Length >= REQUEST_SIZE;
    if ok {
      var id := Put64(h.id, big);
      buf[0] := h.hg;
      buf[1] := h.protocol;
      forall i | 0 <= i < 8 {
        buf[2 + i] := id[i];
      }
      buf[10] := h.flags;
      buf[11] := h.cookie;
      assert buf[2..10] == id;
      assert buf[..REQUEST_SIZE] == [buf[0], buf[1]] + buf[2..10] + [buf[10], buf[11]];
    }
  }

  /** hg_core_header_response_proc when encoding (239-289). */
  method ProcResponse(buf: array<Byte>, h: Response, big: bool) returns (ok: bool)
    requires -128 <= h.retCode < 128
    modifies buf
    ensures ok <==> buf.Length >= RESPONSE_SIZE
    ensures ok ==> buf[..4] == ResponseBytes(h, big) && buf[4..] == old(buf[4..])
    ensures !ok ==> buf[..] == old(buf[..])
  {
    ok := buf.Length >= RESPONSE_SIZE;
    if ok {
      var cookie := Put16(h.cookie, big);
      buf[0] := SignedByte(h.retCode);
      buf[1] := h.flags;
      buf[2] := cookie[0];
      buf[3] := cookie[1];
      assert buf[..4] == [buf[0], buf[1]] + [buf[2], buf[3]];
    }
  }
}
