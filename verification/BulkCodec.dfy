/**
 The bulk descriptor codec of src/mercury_bulk.c (hg_bulk_get_serialize_size,
 hg_bulk_serialize, hg_bulk_deserialize) on an LP64 host without shared-memory
 routing: descriptor information, segments, NA memory handles, bind
 information, eager data.
 */
module BulkCodec {
  import opened Bytes
  import opened Masking

  /** HG_BULK_READ_ONLY, WRITE_ONLY, EAGER, SM, ALLOC, BIND, REGV, VIRT: bits 0 to 7. */
  datatype Flags = Flags(readOnly: bool, writeOnly: bool, eager: bool, sm: bool, alloc: bool, bind: bool, regv: bool, virt: bool)

  /** An NA memory handle is known by the bytes NA serializes it to. */
  type NaMem = Option<seq<Byte>>

  /**
   struct hg_bulk.  `data` is what memory holds for each segment, when the
   handle points to local memory; `pad` are the three bytes after `flags` in
   struct hg_bulk_desc_info; `host` tells host from device memory.
   */
  datatype Bulk = Bulk(
    len: nat, segs: seq<Segment>, flags: Flags, pad: seq<Byte>,
    mems: seq<NaMem>, addr: seq<Byte>, contextId: Byte, host: bool, data: seq<seq<Byte>>)

  const INFO_SIZE: nat := 16
  const SEGMENT_SIZE: nat := 16
  const WORD: nat := 8

  // ------------------------------------------------------------------- flags

  /** The number whose binary digits are `bits`, least significant first. */
  function FromBits(bits: seq<bool>): (r: nat)
    ensures r < Pow2(|bits|)
  {
    if bits == [] then 0 else (if bits[0] then 1 else 0) + 2 * FromBits(bits[1..])
  }

  function ToBits(n: nat, k: nat): (r: seq<bool>)
    ensures |r| == k
  {
    if k == 0 then [] else [n % 2 == 1] + ToBits(n / 2, k - 1)
  }

  lemma {:induction false} BitsRoundTrip(bits: seq<bool>)
    ensures ToBits(FromBits(bits), |bits|) == bits
  {
    if bits != [] {
      BitsRoundTrip(bits[1..]);
      assert FromBits(bits) / 2 == FromBits(bits[1..]);
    }
  }

  function FlagBits(f: Flags): seq<bool>
  {
    [f.readOnly, f.writeOnly, f.eager, f.sm, f.alloc, f.bind, f.regv, f.virt]
  }

  function FlagByte(f: Flags): Byte
  {
    assert Pow2(4) == 16 && Pow2(8) == 16 * Pow2(4);
    FromBits(FlagBits(f))
  }

  function ByteFlags(b: Byte): Flags
  {
    var t := ToBits(b, 8);
    Flags(t[0], t[1], t[2], t[3], t[4], t[5], t[6], t[7])
  }

  lemma FlagsRoundTrip(f: Flags)
    ensures ByteFlags(FlagByte(f)) == f
  {
    BitsRoundTrip(FlagBits(f));
  }

  // ---------------------------------------------------------- what is written

  /** The eager flag is honoured for read-only local host memory (lines 1064-1068). */
  predicate Eager(b: Bulk, asked: bool)
  {
    asked && b.flags.readOnly && !b.flags.virt && b.host
  }

  /** ALLOC is local and never sent; EAGER says whether the data follows; SM is off. */
  function SentFlags(b: Bulk, asked: bool): Flags
  {
    b.flags.(alloc := false, eager := Eager(b, asked))
  }

  function InfoBytes(len: nat, count: nat, f: Flags, pad: seq<Byte>): seq<Byte>
  {
    Encode(len, 8) + Encode(count, 4) + [FlagByte(f)] + pad
  }

  function SegmentBytes(segs: seq<Segment>): (r: seq<Byte>)
    ensures |r| == |segs| * SEGMENT_SIZE
  {
    if segs == [] then [] else Encode(segs[0].base, 8) + Encode(segs[0].len, 8) + SegmentBytes(segs[1..])
  }

  function MemSize(m: NaMem): nat
  {
    if m.None? then 0 else |m.value|
  }

  function SizeBytes(mems: seq<NaMem>): (r: seq<Byte>)
    ensures |r| == |mems| * WORD
  {
    if mems == [] then [] else Encode(MemSize(mems[0]), 8) + SizeBytes(mems[1..])
  }

  /** A handle is written for a segment with a base (lines 1234-1247). */
  function Blob(seg: Segment, mem: NaMem): seq<Byte>
  {
    if seg.base != 0 && mem.Some? then mem.value else []
  }

  function BlobBytes(segs: seq<Segment>, mems: seq<NaMem>): seq<Byte>
    requires |segs| == |mems|
  {
    if segs == [] then [] else Blob(segs[0], mems[0]) + BlobBytes(segs[1..], mems[1..])
  }

  predicate Single(count: nat, f: Flags)
  {
    f.regv || count == 1
  }

  predicate Shaped(b: Bulk)
  {
    |b.mems| == (if Single(|b.segs|, b.flags) then 1 else |b.segs|) && |b.pad| == 3
  }

  function MemBytes(b: Bulk): seq<Byte>
    requires Shaped(b)
  {
    if Single(|b.segs|, b.flags) then
      (if b.mems[0].Some? then Encode(|b.mems[0].value|, 8) + b.mems[0].value else [])
    else SizeBytes(b.mems) + BlobBytes(b.segs, b.mems)
  }

  function BindBytes(b: Bulk): seq<Byte>
  {
    if b.flags.bind then Encode(|b.addr|, 8) + b.addr + [b.contextId] else []
  }

  function EagerBytes(b: Bulk, asked: bool): seq<Byte>
  {
    if Eager(b, asked) then Concat(b.data) else []
  }

  /** Everything hg_bulk_serialize writes (1050-1210). */
  function Wire(b: Bulk, asked: bool): seq<Byte>
    requires Shaped(b)
  {
    InfoBytes(b.len, |b.segs|, SentFlags(b, asked), b.pad) +
    (SegmentBytes(b.segs) + (MemBytes(b) + (BindBytes(b) + EagerBytes(b, asked))))
  }

  // ---------------------------------------------------------------- its size

  function SumMems(mems: seq<NaMem>): nat
  {
    if mems == [] then 0 else MemSize(mems[0]) + SumMems(mems[1..])
  }

  /** hg_bulk_get_serialize_size (963-1018), which goes by the handles, not by the bases. */
  function SerializeSize(b: Bulk, asked: bool): nat
    requires Shaped(b)
  {
    INFO_SIZE + |b.segs| * SEGMENT_SIZE +
    (if Single(|b.segs|, b.flags) then (if b.mems[0].Some? then |b.mems[0].value| + WORD else 0)
     else |b.segs| * WORD + SumMems(b.mems)) +
    (if b.flags.bind then 1 + WORD + |b.addr| else 0) +
    (if Eager(b, asked) then b.len else 0)
  }

  /** The handle's own consistency: its length, the memory behind its segments, and sizes that fit their fields. */
  ghost predicate Consistent(b: Bulk)
  {
    && Shaped(b) && b.len == TotalLen(b.segs)
    && b.len < Pow256(8) && |b.segs| < Pow256(4) && |b.addr| < Pow256(8)
    && (forall i :: 0 <= i < |b.segs| ==> b.segs[i].base < Pow256(8) && b.segs[i].len < Pow256(8))
    && (forall i :: 0 <= i < |b.mems| ==> MemSize(b.mems[i]) < Pow256(8))
    && (!b.flags.virt ==> |b.data| == |b.segs| && forall i :: 0 <= i < |b.segs| ==> |b.data[i]| == b.segs[i].len)
  }

  /** NA memory handles are non-null exactly where bases are (hg_bulk_create_na_mem_descs, 770-779). */
  ghost predicate Registered(b: Bulk)
    requires Shaped(b)
  {
    if b.flags.regv then b.mems[0].Some?
    else forall i :: 0 <= i < |b.segs| ==> (b.mems[i].Some? <==> b.segs[i].base != 0)
  }

  lemma {:induction false} BlobSize(segs: seq<Segment>, mems: seq<NaMem>)
    requires |segs| == |mems| && forall i :: 0 <= i < |segs| ==> (mems[i].Some? ==> segs[i].base != 0)
    ensures |BlobBytes(segs, mems)| == SumMems(mems)
  {
    if segs != [] {
      BlobSize(segs[1..], mems[1..]);
    }
  }

  lemma {:induction false} DataSize(segs: seq<Segment>, data: seq<seq<Byte>>)
    requires |data| == |segs| && forall i :: 0 <= i < |segs| ==> |data[i]| == segs[i].len
    ensures |Concat(data)| == TotalLen(segs)
  {
    if segs != [] {
      DataSize(segs[1..], data[1..]);
    }
  }

  /** Serialization fills a buffer of the announced size exactly. */
  lemma SizeIsExact(b: Bulk, asked: bool)
    requires Consistent(b) && Registered(b)
    ensures |Wire(b, asked)| == SerializeSize(b, asked)
  {
    if !Single(|b.segs|, b.flags) {
      BlobSize(b.segs, b.mems);
    }
    if Eager(b, asked) {
      DataSize(b.segs, b.data);
    }
  }

  // ------------------------------------------------------------- what is read

  datatype Parsed<T> = Overflow | Parsed(value: T, rest: seq<Byte>)

  function ParseWord(bs: seq<Byte>): Parsed<nat>
  {
    if 8 <= |bs| then Parsed(Decode(bs[..8]), bs[8..]) else Overflow
  }

  datatype Info = Info(len: nat, count: nat, flags: Flags, pad: seq<Byte>)

  function ParseInfo(bs: seq<Byte>): Parsed<Info>
  {
    if |bs| < INFO_SIZE then Overflow
    else Parsed(Info(Decode(bs[..8]), Decode(bs[8..12]), ByteFlags(bs[12]), bs[13..16]), bs[16..])
  }

  function ParseSegments(bs: seq<Byte>, n: nat): Parsed<seq<Segment>>
  {
    if n == 0 then Parsed([], bs)
    else if |bs| < SEGMENT_SIZE then Overflow
    else
      match ParseSegments(bs[16..], n - 1)
      case Overflow => Overflow
      case Parsed(segs, rest) => Parsed([Segment(Decode(bs[..8]), Decode(bs[8..16]))] + segs, rest)
  }

  function ParseSizes(bs: seq<Byte>, n: nat): Parsed<seq<nat>>
  {
    if n == 0 then Parsed([], bs)
    else if |bs| < WORD then Overflow
    else
      match ParseSizes(bs[8..], n - 1)
      case Overflow => Overflow
      case Parsed(sizes, rest) => Parsed([Decode(bs[..8])] + sizes, rest)
  }

  /** hg_bulk_deserialize_mem_descs (1458-1472): one handle per segment with a base. */
  function ParseBlobs(bs: seq<Byte>, segs: seq<Segment>, sizes: seq<nat>): Parsed<seq<NaMem>>
    requires |segs| == |sizes|
    decreases |segs|
  {
    if segs == [] then Parsed([], bs)
    else if segs[0].base == 0 then Prepend(None, ParseBlobs(bs, segs[1..], sizes[1..]))
    else if |bs| < sizes[0] then Overflow
    else Prepend(Some(bs[..sizes[0]]), ParseBlobs(bs[sizes[0]..], segs[1..], sizes[1..]))
  }

  function Prepend(m: NaMem, p: Parsed<seq<NaMem>>): Parsed<seq<NaMem>>
  {
    match p
    case Overflow => Overflow
    case Parsed(ms, rest) => Parsed([m] + ms, rest)
  }

  /** Lines 1299-1334: a single handle is read when its segment has a base, and always when REGV is set. */
  function ParseMems(bs: seq<Byte>, segs: seq<Segment>, f: Flags): Parsed<seq<NaMem>>
  {
    if Single(|segs|, f) then
      (if f.regv || (|segs| > 0 && segs[0].base != 0) then ParseOneMem(bs) else Parsed([None], bs))
    else
      match ParseSizes(bs, |segs|)
      case Overflow => Overflow
      case Parsed(sizes, rest) => if |sizes| == |segs| then ParseBlobs(rest, segs, sizes) else Overflow
  }

  function ParseOneMem(bs: seq<Byte>): Parsed<seq<NaMem>>
  {
    match ParseWord(bs)
    case Overflow => Overflow
    case Parsed(n, rest) => if n <= |rest| then Parsed([Some(rest[..n])], rest[n..]) else Overflow
  }

  datatype Bound = Bound(addr: seq<Byte>, contextId: Byte)

  function ParseBind(bs: seq<Byte>, f: Flags): Parsed<Bound>
  {
    if !f.bind then Parsed(Bound([], 0), bs)
    else
      match ParseWord(bs)
      case Overflow => Overflow
      case Parsed(n, rest) => if n + 1 <= |rest| then Parsed(Bound(rest[..n], rest[n]), rest[n + 1..]) else Overflow
  }

  /** Lines 1386-1407: eager data goes into memory allocated for each segment that is not empty. */
  function ParseData(bs: seq<Byte>, segs: seq<Segment>): Parsed<seq<seq<Byte>>>
  {
    if segs == [] then Parsed([], bs)
    else if |bs| < segs[0].len then Overflow
    else
      match ParseData(bs[segs[0].len..], segs[1..])
      case Overflow => Overflow
      case Parsed(data, rest) => Parsed([bs[..segs[0].len]] + data, rest)
  }

  /** The bases after an eager decode: `alloc` hands out local memory, empty segments keep what was sent. */
  function Rebased(segs: seq<Segment>, alloc: nat -> nat): (r: seq<Segment>)
    ensures |r| == |segs|
    ensures forall i :: 0 <= i < |segs| ==> r[i] == (if segs[i].len == 0 then segs[i] else Segment(alloc(i), segs[i].len))
  {
    seq(|segs|, i requires 0 <= i < |segs| => if segs[i].len == 0 then segs[i] else Segment(alloc(i), segs[i].len))
  }

  /** hg_bulk_deserialize (1252-1418). */
  function Deserialize(bs: seq<Byte>, alloc: nat -> nat): Option<Bulk>
  {
    match ParseInfo(bs)
    case Overflow => None
    case Parsed(info, r1) =>
      match ParseSegments(r1, info.count)
      case Overflow => None
      case Parsed(segs, r2) =>
        match ParseMems(r2, segs, info.flags)
        case Overflow => None
        case Parsed(mems, r3) =>
          match ParseBind(r3, info.flags)
          case Overflow => None
          case Parsed(bound, r4) => Finished(info, segs, mems, bound, r4, alloc)
  }

  function Finished(info: Info, segs: seq<Segment>, mems: seq<NaMem>, bound: Bound, bs: seq<Byte>, alloc: nat -> nat): Option<Bulk>
  {
    if info.flags.eager then
      match ParseData(bs, segs)
      case Overflow => None
      case Parsed(data, _) =>
        Some(Bulk(info.len, Rebased(segs, alloc), info.flags.(alloc := true), info.pad, mems, bound.addr, bound.contextId, true, data))
    else
      Some(Bulk(info.len, segs, info.flags.(virt := true), info.pad, mems, bound.addr, bound.contextId, true, []))
  }

  // -------------------------------------------------------------- round trips

  lemma WordFirst(w: seq<Byte>, more: seq<Byte>, rest: seq<Byte>)
    requires |w| == 8
    ensures ((w + more) + rest)[..8] == w && ((w + more) + rest)[8..] == more + rest
  {
  }

  lemma TwoWordsFirst(w: seq<Byte>, w': seq<Byte>, more: seq<Byte>, rest: seq<Byte>)
    requires |w| == 8 && |w'| == 8
    ensures var bs := (w + w' + more) + rest; bs[..8] == w && bs[8..16] == w' && bs[16..] == more + rest
  {
  }

  lemma InfoRoundTrip(len: nat, count: nat, f: Flags, pad: seq<Byte>, rest: seq<Byte>)
    requires len < Pow256(8) && count < Pow256(4) && |pad| == 3
    ensures ParseInfo(InfoBytes(len, count, f, pad) + rest) == Parsed(Info(len, count, f, pad), rest)
  {
    var bs := InfoBytes(len, count, f, pad) + rest;
    assert bs[..8] == Encode(len, 8) && bs[8..12] == Encode(count, 4) && bs[13..16] == pad && bs[16..] == rest;
    DecodeEncode(len, 8);
    DecodeEncode(count, 4);
    FlagsRoundTrip(f);
  }

  lemma {:induction false} SegmentsRoundTrip(segs: seq<Segment>, rest: seq<Byte>)
    requires forall i :: 0 <= i < |segs| ==> segs[i].base < Pow256(8) && segs[i].len < Pow256(8)
    ensures ParseSegments(SegmentBytes(segs) + rest, |segs|) == Parsed(segs, rest)
  {
    if segs == [] {
      assert SegmentBytes(segs) + rest == rest;
    } else {
      TwoWordsFirst(Encode(segs[0].base, 8), Encode(segs[0].len, 8), SegmentBytes(segs[1..]), rest);
      DecodeEncode(segs[0].base, 8);
      DecodeEncode(segs[0].len, 8);
      SegmentsRoundTrip(segs[1..], rest);
      assert segs == [segs[0]] + segs[1..];
    }
  }

  function MemSizes(mems: seq<NaMem>): (r: seq<nat>)
    ensures |r| == |mems|
  {
    if mems == [] then [] else [MemSize(mems[0])] + MemSizes(mems[1..])
  }

  lemma {:induction false} SizesRoundTrip(mems: seq<NaMem>, rest: seq<Byte>)
    requires forall i :: 0 <= i < |mems| ==> MemSize(mems[i]) < Pow256(8)
    ensures ParseSizes(SizeBytes(mems) + rest, |mems|) == Parsed(MemSizes(mems), rest)
  {
    if mems == [] {
      assert SizeBytes(mems) + rest == rest;
    } else {
      WordFirst(Encode(MemSize(mems[0]), 8), SizeBytes(mems[1..]), rest);
      DecodeEncode(MemSize(mems[0]), 8);
      SizesRoundTrip(mems[1..], rest);
    }
  }

  lemma OneBlob(segs: seq<Segment>, mems: seq<NaMem>, rest: seq<Byte>)
    requires |segs| == |mems| > 0 && (mems[0].Some? <==> segs[0].base != 0)
    ensures ParseBlobs(BlobBytes(segs, mems) + rest, segs, MemSizes(mems))
         == Prepend(mems[0], ParseBlobs(BlobBytes(segs[1..], mems[1..]) + rest, segs[1..], MemSizes(mems[1..])))
  {
    var bs, more := BlobBytes(segs, mems) + rest, BlobBytes(segs[1..], mems[1..]) + rest;
    assert MemSizes(mems)[1..] == MemSizes(mems[1..]);
    if segs[0].base != 0 {
      assert bs == mems[0].value + more;
      assert bs[..MemSize(mems[0])] == mems[0].value && bs[MemSize(mems[0])..] == more;
    } else {
      assert bs == more;
    }
  }

  lemma {:induction false} BlobsRoundTrip(segs: seq<Segment>, mems: seq<NaMem>, rest: seq<Byte>)
    requires |segs| == |mems| && forall i :: 0 <= i < |segs| ==> (mems[i].Some? <==> segs[i].base != 0)
    ensures ParseBlobs(BlobBytes(segs, mems) + rest, segs, MemSizes(mems)) == Parsed(mems, rest)
  {
    if segs == [] {
      assert BlobBytes(segs, mems) + rest == rest;
    } else {
      OneBlob(segs, mems, rest);
      BlobsRoundTrip(segs[1..], mems[1..], rest);
      assert mems == [mems[0]] + mems[1..];
    }
  }

  /** A size, the bytes it counts, and what follows. */
  lemma Split(e: seq<Byte>, w: seq<Byte>, rest: seq<Byte>)
    ensures ((e + w) + rest)[..|e|] == e && ((e + w) + rest)[|e|..] == w + rest
    ensures (w + rest)[..|w|] == w && (w + rest)[|w|..] == rest
  {
  }

  lemma SizePrefix(w: seq<Byte>, rest: seq<Byte>)
    requires |w| < Pow256(8)
    ensures ParseWord((Encode(|w|, 8) + w) + rest) == Parsed(|w|, w + rest)
  {
    Split(Encode(|w|, 8), w, rest);
    DecodeEncode(|w|, 8);
  }

  lemma OneMemRoundTrip(blob: seq<Byte>, rest: seq<Byte>)
    requires |blob| < Pow256(8)
    ensures ParseOneMem((Encode(|blob|, 8) + blob) + rest) == Parsed([Some(blob)], rest)
  {
    SizePrefix(blob, rest);
    Split([], blob, rest);
  }

  lemma ManyMemsRoundTrip(segs: seq<Segment>, mems: seq<NaMem>, f: Flags, rest: seq<Byte>)
    requires |segs| == |mems| && !Single(|segs|, f) && forall i :: 0 <= i < |mems| ==> MemSize(mems[i]) < Pow256(8)
    requires forall i :: 0 <= i < |segs| ==> (mems[i].Some? <==> segs[i].base != 0)
    ensures ParseMems((SizeBytes(mems) + BlobBytes(segs, mems)) + rest, segs, f) == Parsed(mems, rest)
  {
    assert (SizeBytes(mems) + BlobBytes(segs, mems)) + rest == SizeBytes(mems) + (BlobBytes(segs, mems) + rest);
    SizesRoundTrip(mems, BlobBytes(segs, mems) + rest);
    BlobsRoundTrip(segs, mems, rest);
  }

  lemma MemsRoundTrip(b: Bulk, rest: seq<Byte>)
    requires Consistent(b) && Registered(b)
    ensures ParseMems(MemBytes(b) + rest, b.segs, b.flags) == Parsed(b.mems, rest)
  {
    if !Single(|b.segs|, b.flags) {
      ManyMemsRoundTrip(b.segs, b.mems, b.flags, rest);
    } else if b.mems[0].Some? {
      OneMemRoundTrip(b.mems[0].value, rest);
      assert b.mems == [b.mems[0]];
    } else {
      assert MemBytes(b) + rest == rest && b.mems == [None];
    }
  }

  lemma BindRoundTrip(b: Bulk, rest: seq<Byte>)
    requires |b.addr| < Pow256(8)
    ensures ParseBind(BindBytes(b) + rest, b.flags) ==
      Parsed(if b.flags.bind then Bound(b.addr, b.contextId) else Bound([], 0), rest)
  {
    if b.flags.bind {
      var bs := BindBytes(b) + rest;
      assert bs[..8] == Encode(|b.addr|, 8);
      assert bs[8..] == b.addr + ([b.contextId] + rest);
      DecodeEncode(|b.addr|, 8);
      assert bs[8..][|b.addr| + 1..] == rest;
    } else {
      assert BindBytes(b) + rest == rest;
    }
  }

  lemma {:induction false} DataRoundTrip(segs: seq<Segment>, data: seq<seq<Byte>>, rest: seq<Byte>)
    requires |data| == |segs| && forall i :: 0 <= i < |segs| ==> |data[i]| == segs[i].len
    ensures ParseData(Concat(data) + rest, segs) == Parsed(data, rest)
  {
    if segs == [] {
      assert Concat(data) + rest == rest;
    } else {
      var bs := Concat(data) + rest;
      assert bs == data[0] + (Concat(data[1..]) + rest);
      assert bs[..segs[0].len] == data[0] && bs[segs[0].len..] == Concat(data[1..]) + rest;
      DataRoundTrip(segs[1..], data[1..], rest);
      assert data == [data[0]] + data[1..];
    }
  }

  /** What a handle becomes on the other side. */
  function Received(b: Bulk, asked: bool, alloc: nat -> nat): Bulk
  {
    var f := SentFlags(b, asked);
    Bulk(b.len,
         if Eager(b, asked) then Rebased(b.segs, alloc) else b.segs,
         if Eager(b, asked) then f.(alloc := true) else f.(virt := true),
         b.pad, b.mems,
         if b.flags.bind then b.addr else [], if b.flags.bind then b.contextId else 0,
         true,
         if Eager(b, asked) then b.data else [])
  }

  lemma DeserializeStages(
    bs: seq<Byte>, info: Info, r1: seq<Byte>, segs: seq<Segment>, r2: seq<Byte>, mems: seq<NaMem>, r3: seq<Byte>, bound: Bound, r4: seq<Byte>,
    alloc: nat -> nat)
    requires ParseInfo(bs) == Parsed(info, r1) && ParseSegments(r1, info.count) == Parsed(segs, r2)
    requires ParseMems(r2, segs, info.flags) == Parsed(mems, r3) && ParseBind(r3, info.flags) == Parsed(bound, r4)
    ensures Deserialize(bs, alloc) == Finished(info, segs, mems, bound, r4, alloc)
  {
  }

  lemma FinishedRoundTrip(b: Bulk, asked: bool, info: Info, bound: Bound, rest: seq<Byte>, alloc: nat -> nat)
    requires Consistent(b) && info == Info(b.len, |b.segs|, SentFlags(b, asked), b.pad)
    requires bound == (if b.flags.bind then Bound(b.addr, b.contextId) else Bound([], 0))
    ensures Finished(info, b.segs, b.mems, bound, EagerBytes(b, asked) + rest, alloc) == Some(Received(b, asked, alloc))
  {
    if Eager(b, asked) {
      DataRoundTrip(b.segs, b.data, rest);
    }
  }

  /** The parser sees only the REGV and BIND bits, which are sent as they are. */
  lemma SameShape(b: Bulk, asked: bool, bs: seq<Byte>)
    ensures ParseMems(bs, b.segs, SentFlags(b, asked)) == ParseMems(bs, b.segs, b.flags)
    ensures ParseBind(bs, SentFlags(b, asked)) == ParseBind(bs, b.flags)
  {
  }

  lemma Reassociate(a: seq<Byte>, b: seq<Byte>, c: seq<Byte>, d: seq<Byte>, e: seq<Byte>, rest: seq<Byte>)
    ensures (a + (b + (c + (d + e)))) + rest == a + (b + (c + (d + (e + rest))))
  {
    assert (d + e) + rest == d + (e + rest);
    assert (c + (d + e)) + rest == c + ((d + e) + rest);
    assert (b + (c + (d + e))) + rest == b + ((c + (d + e)) + rest);
    assert (a + (b + (c + (d + e)))) + rest == a + ((b + (c + (d + e))) + rest);
  }

  lemma WireInOrder(b: Bulk, asked: bool, rest: seq<Byte>)
    requires Shaped(b)
    ensures Wire(b, asked) + rest ==
      InfoBytes(b.len, |b.segs|, SentFlags(b, asked), b.pad) +
      (SegmentBytes(b.segs) + (MemBytes(b) + (BindBytes(b) + (EagerBytes(b, asked) + rest))))
  {
    Reassociate(
      InfoBytes(b.len, |b.segs|, SentFlags(b, asked), b.pad), SegmentBytes(b.segs), MemBytes(b), BindBytes(b), EagerBytes(b, asked), rest);
  }

  /** Deserializing what was serialized recovers the handle, whatever follows it in the buffer. */
  lemma WireRoundTrip(b: Bulk, asked: bool, rest: seq<Byte>, alloc: nat -> nat)
    requires Consistent(b) && Registered(b)
    ensures Deserialize(Wire(b, asked) + rest, alloc) == Some(Received(b, asked, alloc))
  {
    var info := Info(b.len, |b.segs|, SentFlags(b, asked), b.pad);
    var bound := if b.flags.bind then Bound(b.addr, b.contextId) else Bound([], 0);
    var r4 := EagerBytes(b, asked) + rest;
    var r3 := BindBytes(b) + r4;
    var r2 := MemBytes(b) + r3;
    var r1 := SegmentBytes(b.segs) + r2;
    var bs := InfoBytes(b.len, |b.segs|, SentFlags(b, asked), b.pad) + r1;
    WireInOrder(b, asked, rest);
    InfoRoundTrip(b.len, |b.segs|, SentFlags(b, asked), b.pad, r1);
    SegmentsRoundTrip(b.segs, r2);
    MemsRoundTrip(b, r3);
    SameShape(b, asked, r2);
    BindRoundTrip(b, r4);
    SameShape(b, asked, r3);
    DeserializeStages(bs, info, r1, b.segs, r2, b.mems, r3, bound, r4, alloc);
    FinishedRoundTrip(b, asked, info, bound, rest, alloc);
  }

  /** The flag byte of a serialized handle. */
  const FLAGS_AT := 12

  /**
   On the wire the EAGER bit is set, and the data follows everything else,
   exactly for a handle that is read-only, not a view of remote memory, in host
   memory, and asked to be sent with its data.
   */
  lemma EagerOnWireIff(b: Bulk, asked: bool)
    requires Shaped(b)
    ensures var eager := asked && b.flags.readOnly && !b.flags.virt && b.host;
            && |Wire(b, asked)| > FLAGS_AT && (ByteFlags(Wire(b, asked)[FLAGS_AT]).eager <==> eager)
            && Wire(b, asked)[FLAGS_AT + 1..] == Wire(b, false)[FLAGS_AT + 1..] + (if eager then Concat(b.data) else [])
  {
    var f, rest := SentFlags(b, asked), SegmentBytes(b.segs) + (MemBytes(b) + (BindBytes(b) + EagerBytes(b, asked)));
    FlagsRoundTrip(f);
    var info, plain := InfoBytes(b.len, |b.segs|, f, b.pad), InfoBytes(b.len, |b.segs|, SentFlags(b, false), b.pad);
    assert info[FLAGS_AT] == FlagByte(f) && info[FLAGS_AT + 1..] == b.pad == plain[FLAGS_AT + 1..];
    DataLast(info, plain, SegmentBytes(b.segs), MemBytes(b), BindBytes(b), EagerBytes(b, asked), b.pad);
    assert EagerBytes(b, false) == [];
  }

  lemma DataLast(info: seq<Byte>, plain: seq<Byte>, a: seq<Byte>, m: seq<Byte>, c: seq<Byte>, d: seq<Byte>, pad: seq<Byte>)
    requires |info| == |plain| == 16 && info[13..] == pad == plain[13..]
    ensures (info + (a + (m + (c + d))))[13..] == (plain + (a + (m + (c + []))))[13..] + d
  {
    assert (info + (a + (m + (c + d))))[13..] == pad + (a + (m + (c + d)));
    assert (plain + (a + (m + (c + []))))[13..] == pad + (a + (m + c));
    assert (pad + (a + (m + c))) + d == pad + (a + (m + (c + d)));
  }

  // --------------------------------------------------------- freeing and reuse

  /** hg_bulk_free releases the base of every segment of a handle that has the ALLOC flag (721-725). */
  function FreedBases(b: Bulk): seq<nat>
  {
    if b.flags.alloc then seq(|b.segs|, i requires 0 <= i < |b.segs| => b.segs[i].base) else []
  }

  /**
   Freeing a handle that was received with its data frees null pointers and
   memory allocated by the decoder only, if and only if no empty segment was
   sent with a base.
   */
  lemma FreedMemoryIsLocal(b: Bulk, asked: bool, alloc: nat -> nat)
    requires Eager(b, asked) && forall i :: 0 <= i < |b.segs| ==> alloc(i) != 0
    ensures var freed := FreedBases(Received(b, asked, alloc));
            && |freed| == |b.segs|
            && ((forall i :: 0 <= i < |freed| ==> freed[i] == 0 || (b.segs[i].len > 0 && freed[i] == alloc(i)))
                <==> (forall i :: 0 <= i < |b.segs| && b.segs[i].len == 0 ==> b.segs[i].base == 0))
  {
    var freed := FreedBases(Received(b, asked, alloc));
    forall i | 0 <= i < |b.segs|
      ensures freed[i] == (if b.segs[i].len == 0 then b.segs[i].base else alloc(i))
    {
    }
  }

  /** One empty segment with a base, sent with its (no) data: the receiver frees the sender's address. */
  lemma EmptySegmentFreesForeign(b: Bulk, base: nat, alloc: nat -> nat)
    requires Eager(b, true) && b.segs == [Segment(base, 0)] && base > 0 && alloc(0) != 0
    ensures FreedBases(Received(b, true, alloc)) == [base]
  {
    var freed := FreedBases(Received(b, true, alloc));
    assert |freed| == 1 && freed[0] == base;
  }

  /** Equal but for the addresses of memory that the decoder allocated. */
  predicate SameUpToAddresses(x: Bulk, y: Bulk)
  {
    && x == y.(segs := x.segs) && |x.segs| == |y.segs|
    && (forall i :: 0 <= i < |x.segs| ==> x.segs[i].len == y.segs[i].len)
    && (forall i :: 0 <= i < |x.segs| && (!x.flags.alloc || x.segs[i].len == 0) ==> x.segs[i].base == y.segs[i].base)
  }

  /** Segments have a base exactly when they are not empty. */
  ghost predicate Based(b: Bulk)
  {
    forall i :: 0 <= i < |b.segs| ==> (b.segs[i].base == 0 <==> b.segs[i].len == 0)
  }

  ghost predicate Allocates(b: Bulk, alloc: nat -> nat)
  {
    forall i :: 0 <= i < |b.segs| ==> 0 < alloc(i) < Pow256(8)
  }

  lemma {:induction false} SameLens(segs: seq<Segment>, segs': seq<Segment>)
    requires |segs| == |segs'| && forall i :: 0 <= i < |segs| ==> segs[i].len == segs'[i].len
    ensures TotalLen(segs) == TotalLen(segs')
  {
    if segs != [] {
      SameLens(segs[1..], segs'[1..]);
    }
  }

  /** A received handle can be sent on. */
  lemma ReceivedIsSound(b: Bulk, asked: bool, alloc: nat -> nat)
    requires Consistent(b) && Registered(b) && Based(b) && Allocates(b, alloc)
    ensures Consistent(Received(b, asked, alloc)) && Registered(Received(b, asked, alloc))
  {
    SameLens(b.segs, Received(b, asked, alloc).segs);
  }

  /** Sending a received handle on asks for the size it came with only if it is sent the same way. */
  lemma SameSizeSameWay(b: Bulk, asked: bool, again: bool, alloc: nat -> nat)
    requires Consistent(b) && Registered(b) && b.len > 0
    requires SerializeSize(Received(b, asked, alloc), again) == |Wire(b, asked)|
    ensures Eager(Received(b, asked, alloc), again) == Eager(b, asked)
  {
    SizeIsExact(b, asked);
  }

  lemma ReadBack(b: Bulk, asked: bool, alloc: nat -> nat)
    requires Consistent(b) && Registered(b)
    ensures Deserialize(Wire(b, asked), alloc) == Some(Received(b, asked, alloc))
  {
    WireRoundTrip(b, asked, [], alloc);
    assert Wire(b, asked) + [] == Wire(b, asked);
  }

  /** A received handle that is sent on arrives unchanged, up to local addresses, exactly when it is sent the same way. */
  lemma SentOnUnchanged(b: Bulk, asked: bool, again: bool, alloc: nat -> nat, alloc1: nat -> nat, alloc2: nat -> nat)
    ensures Eager(Received(b, asked, alloc), again) == Eager(b, asked) <==>
      SameUpToAddresses(Received(b, asked, alloc1), Received(Received(b, asked, alloc), again, alloc2))
  {
    var x, y := Received(b, asked, alloc1), Received(Received(b, asked, alloc), again, alloc2);
    assert x.flags.eager == Eager(b, asked) && y.flags.eager == Eager(Received(b, asked, alloc), again);
  }

  /**
   Re-encoding a received handle of non-zero length when the size matches the
   cached one: the cached bytes and a fresh serialization decode to the same
   handle, up to local addresses.
   */
  lemma CachedBytesAreAsGood(b: Bulk, asked: bool, again: bool, alloc: nat -> nat, alloc1: nat -> nat, alloc2: nat -> nat)
    requires Consistent(b) && Registered(b) && Based(b) && Allocates(b, alloc) && b.len > 0
    requires SerializeSize(Received(b, asked, alloc), again) == |Wire(b, asked)|
    ensures var d := Received(b, asked, alloc);
            && Shaped(d) && |Wire(d, again)| == |Wire(b, asked)|
            && Deserialize(Wire(b, asked), alloc1) == Some(Received(b, asked, alloc1))
            && Deserialize(Wire(d, again), alloc2) == Some(Received(d, again, alloc2))
            && SameUpToAddresses(Received(b, asked, alloc1), Received(d, again, alloc2))
  {
    ReceivedIsSound(b, asked, alloc);
    SizeIsExact(Received(b, asked, alloc), again);
    SizeIsExact(b, asked);
    SameSizeSameWay(b, asked, again, alloc);
    ReadBack(b, asked, alloc1);
    ReadBack(Received(b, asked, alloc), again, alloc2);
    SentOnUnchanged(b, asked, again, alloc, alloc1, alloc2);
  }
}
