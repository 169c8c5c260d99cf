/**
 hg_bulk_serialize and hg_bulk_deserialize of src/mercury_bulk.c as they run:
 a cursor moves through a buffer and every write or read is checked against the
 bytes left.
 */
module BulkWire {
  import opened Bytes
  import opened BulkCodec

  /** `data` was written at `pos`, `next` is behind it, and nothing else changed. */
  ghost predicate Wrote(before: seq<Byte>, after: seq<Byte>, pos: nat, next: nat, data: seq<Byte>)
  {
    && next == pos + |data| <= |before| == |after|
    && after[..next] == before[..pos] + data
    && after[next..] == before[next..]
  }

  lemma WroteBoth(
    first: seq<Byte>, second: seq<Byte>, third: seq<Byte>, pos: nat, mid: nat, next: nat, x: seq<Byte>, y: seq<Byte>)
    requires Wrote(first, second, pos, mid, x) && Wrote(second, third, mid, next, y)
    ensures Wrote(first, third, pos, next, x + y)
  {
    assert third[..next] == (first[..pos] + x) + y == first[..pos] + (x + y);
    assert second[next..] == second[mid..][next - mid..] == first[mid..][next - mid..] == first[next..];
  }

  /** HG_BULK_TYPE_ENCODE (41-48). */
  method Put(buf: array<Byte>, pos: nat, end: nat, data: seq<Byte>) returns (ok: bool, next: nat)
    requires pos <= end <= buf.Length
    modifies buf
    ensures ok <==> pos + |data| <= end
    ensures ok ==> Wrote(old(buf[..]), buf[..], pos, next, data)
    ensures !ok ==> next == pos && buf[..] == old(buf[..])
  {
    ok, next := pos + |data| <= end, pos;
    if ok {
      forall i | 0 <= i < |data| {
        buf[pos + i] := data[i];
      }
      next := pos + |data|;
    }
  }

  lemma NextBlob(done: seq<Byte>, segs: seq<Segment>, mems: seq<NaMem>, i: nat)
    requires i < |segs| == |mems|
    ensures done + BlobBytes(segs[i..], mems[i..]) == (done + Blob(segs[i], mems[i])) + BlobBytes(segs[i + 1..], mems[i + 1..])
  {
    assert segs[i..][1..] == segs[i + 1..] && mems[i..][1..] == mems[i + 1..];
    assert BlobBytes(segs[i..], mems[i..]) == Blob(segs[i], mems[i]) + BlobBytes(segs[i + 1..], mems[i + 1..]);
  }

  /** The handles of lines 1234-1247, one for every segment with a base. */
  method PutBlobs(buf: array<Byte>, pos: nat, end: nat, segs: seq<Segment>, mems: seq<NaMem>) returns (ok: bool, next: nat)
    requires pos <= end <= buf.Length && |segs| == |mems|
    requires forall i :: 0 <= i < |segs| ==> (mems[i].Some? <==> segs[i].base != 0)
    modifies buf
    ensures ok <==> pos + |BlobBytes(segs, mems)| <= end
    ensures ok ==> Wrote(old(buf[..]), buf[..], pos, next, BlobBytes(segs, mems))
  {
    ghost var before, done: seq<Byte> := buf[..], [];
    ok, next := true, pos;
    var i := 0;
    while i < |segs|
      invariant ok && i <= |segs| && next <= end
      invariant done + BlobBytes(segs[i..], mems[i..]) == BlobBytes(segs, mems)
      invariant Wrote(before, buf[..], pos, next, done)
    {
      NextBlob(done, segs, mems, i);
      if segs[i].base != 0 {
        ghost var middle, at := buf[..], next;
        ok, next := Put(buf, next, end, mems[i].value);
        if !ok {
          return;
        }
        WroteBoth(before, middle, buf[..], pos, at, next, done, mems[i].value);
        done := done + mems[i].value;
      }
      i := i + 1;
    }
    assert BlobBytes(segs[i..], mems[i..]) == [];
  }

  /** Two writes, one after the other. */
  method PutTwo(buf: array<Byte>, pos: nat, end: nat, x: seq<Byte>, y: seq<Byte>) returns (ok: bool, next: nat)
    requires pos <= end <= buf.Length
    modifies buf
    ensures ok <==> pos + |x + y| <= end
    ensures ok ==> Wrote(old(buf[..]), buf[..], pos, next, x + y)
  {
    ok, next := Put(buf, pos, end, x);
    if ok {
      ghost var middle, at := buf[..], next;
      ok, next := Put(buf, next, end, y);
      if ok {
        WroteBoth(old(buf[..]), middle, buf[..], pos, at, next, x, y);
      }
    }
  }

  /** hg_bulk_serialize_mem_descs (1214-1248): all sizes, then the handles. */
  method PutMems(buf: array<Byte>, pos: nat, end: nat, segs: seq<Segment>, mems: seq<NaMem>) returns (ok: bool, next: nat)
    requires pos <= end <= buf.Length && |segs| == |mems|
    requires forall i :: 0 <= i < |segs| ==> (mems[i].Some? <==> segs[i].base != 0)
    modifies buf
    ensures ok <==> pos + |SizeBytes(mems) + BlobBytes(segs, mems)| <= end
    ensures ok ==> Wrote(old(buf[..]), buf[..], pos, next, SizeBytes(mems) + BlobBytes(segs, mems))
  {
    ok, next := Put(buf, pos, end, SizeBytes(mems));
    if ok {
      ghost var middle, at := buf[..], next;
      ok, next := PutBlobs(buf, next, end, segs, mems);
      if ok {
        WroteBoth(old(buf[..]), middle, buf[..], pos, at, next, SizeBytes(mems), BlobBytes(segs, mems));
      }
    }
  }

  lemma NextData(done: seq<Byte>, data: seq<seq<Byte>>, i: nat)
    requires i < |data|
    ensures done + Concat(data[i..]) == (done + data[i]) + Concat(data[i + 1..])
  {
    assert Concat(data[i..]) == data[i] + Concat(data[i..][1..]);
    assert data[i..][1..] == data[i + 1..];
  }

  /** The eager data of lines 1190-1203: empty segments are skipped. */
  method PutData(buf: array<Byte>, pos: nat, end: nat, segs: seq<Segment>, data: seq<seq<Byte>>) returns (ok: bool, next: nat)
    requires pos <= end <= buf.Length && |segs| == |data| && forall i :: 0 <= i < |segs| ==> |data[i]| == segs[i].len
    modifies buf
    ensures ok <==> pos + |Concat(data)| <= end
    ensures ok ==> Wrote(old(buf[..]), buf[..], pos, next, Concat(data))
  {
    ghost var before, done: seq<Byte> := buf[..], [];
    ok, next := true, pos;
    var i := 0;
    while i < |segs|
      invariant ok && i <= |segs| && next <= end
      invariant done + Concat(data[i..]) == Concat(data)
      invariant Wrote(before, buf[..], pos, next, done)
    {
      NextData(done, data, i);
      if segs[i].len != 0 {
        ghost var middle, at := buf[..], next;
        ok, next := Put(buf, next, end, data[i]);
        if !ok {
          return;
        }
        WroteBoth(before, middle, buf[..], pos, at, next, done, data[i]);
        done := done + data[i];
      } else {
        assert data[i] == [];
      }
      i := i + 1;
    }
    assert Concat(data[i..]) == [];
  }

  /** Address information (1164-1188). */
  method PutBind(buf: array<Byte>, pos: nat, end: nat, b: Bulk) returns (ok: bool, next: nat)
    requires pos <= end <= buf.Length
    modifies buf
    ensures ok <==> pos + |BindBytes(b)| <= end
    ensures ok ==> Wrote(old(buf[..]), buf[..], pos, next, BindBytes(b))
  {
    ok, next := true, pos;
    if b.flags.bind {
      ok, next := PutTwo(buf, pos, end, Encode(|b.addr|, 8), b.addr);
      if ok {
        ghost var middle, at := buf[..], next;
        ok, next := Put(buf, next, end, [b.contextId]);
        if ok {
          WroteBoth(old(buf[..]), middle, buf[..], pos, at, next, Encode(|b.addr|, 8) + b.addr, [b.contextId]);
        }
      }
    }
  }

  /** The memory handles of lines 1095-1160. */
  method PutHandles(buf: array<Byte>, pos: nat, end: nat, b: Bulk) returns (ok: bool, next: nat)
    requires pos <= end <= buf.Length && Shaped(b) && Registered(b)
    modifies buf
    ensures ok <==> pos + |MemBytes(b)| <= end
    ensures ok ==> Wrote(old(buf[..]), buf[..], pos, next, MemBytes(b))
  {
    ok, next := true, pos;
    if !Single(|b.segs|, b.flags) {
      ok, next := PutMems(buf, pos, end, b.segs, b.mems);
    } else if b.mems[0].Some? {
      ok, next := PutTwo(buf, pos, end, Encode(|b.mems[0].value|, 8), b.mems[0].value);
    }
  }

  function Head(b: Bulk, asked: bool): seq<Byte>
  {
    InfoBytes(b.len, |b.segs|, SentFlags(b, asked), b.pad) + SegmentBytes(b.segs)
  }

  function Tail(b: Bulk, asked: bool): seq<Byte>
    requires Shaped(b)
  {
    MemBytes(b) + (BindBytes(b) + EagerBytes(b, asked))
  }

  lemma HeadAndTail(b: Bulk, asked: bool)
    requires Shaped(b)
    ensures Wire(b, asked) == Head(b, asked) + Tail(b, asked)
  {
  }

  method PutEnd(buf: array<Byte>, pos: nat, end: nat, b: Bulk, asked: bool) returns (ok: bool, next: nat)
    requires pos <= end <= buf.Length && Consistent(b)
    modifies buf
    ensures ok <==> pos + |BindBytes(b) + EagerBytes(b, asked)| <= end
    ensures ok ==> Wrote(old(buf[..]), buf[..], pos, next, BindBytes(b) + EagerBytes(b, asked))
  {
    ok, next := PutBind(buf, pos, end, b);
    if ok && Eager(b, asked) {
      ghost var middle, at := buf[..], next;
      ok, next := PutData(buf, next, end, b.segs, b.data);
      if ok {
        WroteBoth(old(buf[..]), middle, buf[..], pos, at, next, BindBytes(b), Concat(b.data));
      }
    }
  }

  method PutTail(buf: array<Byte>, pos: nat, end: nat, b: Bulk, asked: bool) returns (ok: bool, next: nat)
    requires pos <= end <= buf.Length && Consistent(b) && Registered(b)
    modifies buf
    ensures ok <==> pos + |Tail(b, asked)| <= end
    ensures ok ==> Wrote(old(buf[..]), buf[..], pos, next, Tail(b, asked))
  {
    ok, next := PutHandles(buf, pos, end, b);
    if ok {
      ghost var middle, at := buf[..], next;
      ok, next := PutEnd(buf, next, end, b, asked);
      if ok {
        WroteBoth(old(buf[..]), middle, buf[..], pos, at, next, MemBytes(b), BindBytes(b) + EagerBytes(b, asked));
      }
    }
  }

  /**
   hg_bulk_serialize (1050-1210) into the bytes [at, end) of a buffer: fails with
   HG_OVERFLOW exactly when they are fewer than the serialized handle, and
   otherwise writes it there and nothing else.
   */
  method Serialize(buf: array<Byte>, at: nat, end: nat, b: Bulk, asked: bool) returns (ok: bool)
    requires at <= end <= buf.Length && Consistent(b) && Registered(b)
    modifies buf
    ensures ok <==> at + SerializeSize(b, asked) <= end
    ensures ok ==> |Wire(b, asked)| == SerializeSize(b, asked)
    ensures ok ==> Wrote(old(buf[..]), buf[..], at, at + SerializeSize(b, asked), Wire(b, asked))
  {
    SizeIsExact(b, asked);
    HeadAndTail(b, asked);
    var pos: nat;
    ok, pos := PutTwo(buf, at, end, InfoBytes(b.len, |b.segs|, SentFlags(b, asked), b.pad), SegmentBytes(b.segs));
    if ok {
      ghost var middle, mid := buf[..], pos;
      ok, pos := PutTail(buf, pos, end, b, asked);
      if ok {
        WroteBoth(old(buf[..]), middle, buf[..], at, mid, pos, Head(b, asked), Tail(b, asked));
      }
    }
  }

  // ------------------------------------------------------------------ reading

  /** What a checked read says: the parse fails, or it gives `value` and stops at `next`. */
  ghost predicate ReadsAs<T>(bs: seq<Byte>, p: Parsed<T>, ok: bool, value: T, next: nat)
  {
    if ok then next <= |bs| && p == Parsed(value, bs[next..]) else p == Overflow
  }

  /** HG_BULK_TYPE_DECODE (59-66). */
  method Get(bs: seq<Byte>, pos: nat, n: nat) returns (ok: bool, data: seq<Byte>, next: nat)
    requires pos <= |bs|
    ensures ok <==> pos + n <= |bs|
    ensures ok ==> next == pos + n && data == bs[pos..next]
    ensures ok ==> data == bs[pos..][..n] && bs[next..] == bs[pos..][n..]
  {
    ok, data, next := n <= |bs| - pos, [], pos;
    if ok {
      data, next := bs[pos..pos + n], pos + n;
      assert bs[next..] == bs[pos..][n..];
    }
  }

  method ReadWord(bs: seq<Byte>, pos: nat) returns (ok: bool, n: nat, next: nat)
    requires pos <= |bs|
    ensures ReadsAs(bs, ParseWord(bs[pos..]), ok, n, next)
  {
    var data;
    ok, data, next := Get(bs, pos, 8);
    n := if ok then Decode(data) else 0;
  }

  /** Descriptor info (1272-1273). */
  method ReadInfo(bs: seq<Byte>, pos: nat) returns (ok: bool, info: Info, next: nat)
    requires pos <= |bs|
    ensures ReadsAs(bs, ParseInfo(bs[pos..]), ok, info, next)
  {
    var data;
    ok, data, next := Get(bs, pos, INFO_SIZE);
    info := Info(0, 0, ByteFlags(0), []);
    if ok {
      var here := bs[pos..];
      assert data[..8] == here[..8] && data[8..12] == here[8..12] && data[13..16] == here[13..16];
      info := Info(Decode(data[..8]), Decode(data[8..12]), ByteFlags(data[12]), data[13..16]);
    }
  }

  function Joined<T>(first: seq<T>, p: Parsed<seq<T>>): (r: Parsed<seq<T>>)
    ensures first == [] ==> r == p
    ensures p.Parsed? && p.value == [] ==> r == Parsed(first, p.rest)
  {
    match p
    case Overflow => Overflow
    case Parsed(more, rest) =>
      assert [] + more == more && first + [] == first;
      Parsed(first + more, rest)
  }

  lemma {:induction false} SegmentsTooShort(bs: seq<Byte>, n: nat)
    requires |bs| < SEGMENT_SIZE * n
    ensures ParseSegments(bs, n) == Overflow
  {
    if |bs| >= SEGMENT_SIZE {
      SegmentsTooShort(bs[16..], n - 1);
    }
  }

  lemma SegmentTurn(bs: seq<Byte>, n: nat, segs: seq<Segment>)
    requires n > 0 && |bs| >= SEGMENT_SIZE
    ensures Joined(segs, ParseSegments(bs, n))
            == Joined(segs + [Segment(Decode(bs[..8]), Decode(bs[8..16]))], ParseSegments(bs[16..], n - 1))
  {
    var seg := Segment(Decode(bs[..8]), Decode(bs[8..16]));
    forall more: seq<Segment>
      ensures segs + ([seg] + more) == (segs + [seg]) + more
    {
    }
  }

  /** The segments (1300-1301), checked as one array. */
  method ReadSegments(bs: seq<Byte>, pos: nat, count: nat) returns (ok: bool, segs: seq<Segment>, next: nat)
    requires pos <= |bs|
    ensures ReadsAs(bs, ParseSegments(bs[pos..], count), ok, segs, next)
  {
    ok, segs, next := SEGMENT_SIZE * count <= |bs| - pos, [], pos;
    if !ok {
      SegmentsTooShort(bs[pos..], count);
      return;
    }
    var i := 0;
    while i < count
      invariant i <= count && next <= |bs| && SEGMENT_SIZE * (count - i) <= |bs| - next
      invariant Joined(segs, ParseSegments(bs[next..], count - i)) == ParseSegments(bs[pos..], count)
    {
      SegmentTurn(bs[next..], count - i, segs);
      SegmentAt(bs, next);
      segs, next := segs + [Segment(Decode(bs[next..next + 8]), Decode(bs[next + 8..next + 16]))], next + 16;
      i := i + 1;
    }
  }

  lemma SegmentAt(bs: seq<Byte>, at: nat)
    requires at + 16 <= |bs|
    ensures bs[at..][..8] == bs[at..at + 8] && bs[at..][8..16] == bs[at + 8..at + 16] && bs[at..][16..] == bs[at + 16..]
  {
  }

  lemma {:induction false} SizesTooShort(bs: seq<Byte>, n: nat)
    requires |bs| < WORD * n
    ensures ParseSizes(bs, n) == Overflow
  {
    if |bs| >= WORD {
      SizesTooShort(bs[8..], n - 1);
    }
  }

  lemma SizeTurn(bs: seq<Byte>, n: nat, sizes: seq<nat>)
    requires n > 0 && |bs| >= WORD
    ensures Joined(sizes, ParseSizes(bs, n)) == Joined(sizes + [Decode(bs[..8])], ParseSizes(bs[8..], n - 1))
  {
    var size := Decode(bs[..8]);
    forall more: seq<nat>
      ensures sizes + ([size] + more) == (sizes + [size]) + more
    {
    }
  }

  /** The sizes of the memory handles (1456-1457), checked as one array. */
  method ReadSizes(bs: seq<Byte>, pos: nat, count: nat) returns (ok: bool, sizes: seq<nat>, next: nat)
    requires pos <= |bs|
    ensures ReadsAs(bs, ParseSizes(bs[pos..], count), ok, sizes, next)
    ensures ok ==> |sizes| == count
  {
    ok, sizes, next := WORD * count <= |bs| - pos, [], pos;
    if !ok {
      SizesTooShort(bs[pos..], count);
      return;
    }
    var i := 0;
    while i < count
      invariant i <= count && next <= |bs| && WORD * (count - i) <= |bs| - next && |sizes| == i
      invariant Joined(sizes, ParseSizes(bs[next..], count - i)) == ParseSizes(bs[pos..], count)
    {
      SizeTurn(bs[next..], count - i, sizes);
      assert bs[next..][..8] == bs[next..next + 8] && bs[next..][8..] == bs[next + 8..];
      sizes, next := sizes + [Decode(bs[next..next + 8])], next + 8;
      i := i + 1;
    }
  }

  lemma JoinedPrepend(mems: seq<NaMem>, m: NaMem, p: Parsed<seq<NaMem>>)
    ensures Joined(mems, Prepend(m, p)) == Joined(mems + [m], p)
  {
    if p.Parsed? {
      assert mems + ([m] + p.value) == (mems + [m]) + p.value;
    }
  }

  /** One turn of the loop at lines 1459-1474. */
  lemma BlobTurn(bs: seq<Byte>, segs: seq<Segment>, sizes: seq<nat>, i: nat, mems: seq<NaMem>)
    requires i < |segs| == |sizes|
    ensures segs[i].base == 0 ==>
      Joined(mems, ParseBlobs(bs, segs[i..], sizes[i..])) == Joined(mems + [None], ParseBlobs(bs, segs[i + 1..], sizes[i + 1..]))
    ensures segs[i].base != 0 && |bs| < sizes[i] ==> ParseBlobs(bs, segs[i..], sizes[i..]) == Overflow
    ensures segs[i].base != 0 && |bs| >= sizes[i] ==>
      Joined(mems, ParseBlobs(bs, segs[i..], sizes[i..]))
      == Joined(mems + [Some(bs[..sizes[i]])], ParseBlobs(bs[sizes[i]..], segs[i + 1..], sizes[i + 1..]))
  {
    assert segs[i..][1..] == segs[i + 1..] && sizes[i..][1..] == sizes[i + 1..];
    if segs[i].base == 0 {
      JoinedPrepend(mems, None, ParseBlobs(bs, segs[i + 1..], sizes[i + 1..]));
    } else if |bs| >= sizes[i] {
      JoinedPrepend(mems, Some(bs[..sizes[i]]), ParseBlobs(bs[sizes[i]..], segs[i + 1..], sizes[i + 1..]));
    }
  }

  /** hg_bulk_deserialize_mem_descs (1459-1474), after the sizes. */
  method ReadBlobs(bs: seq<Byte>, pos: nat, segs: seq<Segment>, sizes: seq<nat>) returns (ok: bool, mems: seq<NaMem>, next: nat)
    requires pos <= |bs| && |segs| == |sizes|
    ensures ReadsAs(bs, ParseBlobs(bs[pos..], segs, sizes), ok, mems, next)
  {
    ok, mems, next := true, [], pos;
    var i := 0;
    assert segs[0..] == segs && sizes[0..] == sizes;
    while i < |segs|
      invariant ok && i <= |segs| && next <= |bs|
      invariant Joined(mems, ParseBlobs(bs[next..], segs[i..], sizes[i..])) == ParseBlobs(bs[pos..], segs, sizes)
    {
      BlobTurn(bs[next..], segs, sizes, i, mems);
      if segs[i].base == 0 {
        mems := mems + [None];
      } else {
        var data;
        ok, data, next := Get(bs, next, sizes[i]);
        if !ok {
          return;
        }
        mems := mems + [Some(data)];
      }
      i := i + 1;
    }
  }

  lemma DataTurn(bs: seq<Byte>, segs: seq<Segment>, i: nat, data: seq<seq<Byte>>)
    requires i < |segs|
    ensures |bs| < segs[i].len ==> ParseData(bs, segs[i..]) == Overflow
    ensures |bs| >= segs[i].len ==>
      Joined(data, ParseData(bs, segs[i..])) == Joined(data + [bs[..segs[i].len]], ParseData(bs[segs[i].len..], segs[i + 1..]))
  {
    assert segs[i..][1..] == segs[i + 1..];
    if |bs| >= segs[i].len {
      forall more: seq<seq<Byte>>
        ensures data + ([bs[..segs[i].len]] + more) == (data + [bs[..segs[i].len]]) + more
      {
      }
    }
  }

  /** The eager data (1386-1404): an empty segment is skipped and keeps its base. */
  method ReadData(bs: seq<Byte>, pos: nat, segs: seq<Segment>, alloc: nat -> nat)
    returns (ok: bool, data: seq<seq<Byte>>, rebased: seq<Segment>, next: nat)
    requires pos <= |bs|
    ensures ReadsAs(bs, ParseData(bs[pos..], segs), ok, data, next)
    ensures ok ==> rebased == Rebased(segs, alloc)
  {
    ok, data, next, rebased := true, [], pos, segs;
    var i := 0;
    assert segs[0..] == segs;
    while i < |segs|
      invariant ok && i <= |segs| && next <= |bs| && |rebased| == |segs|
      invariant Joined(data, ParseData(bs[next..], segs[i..])) == ParseData(bs[pos..], segs)
      invariant forall j :: 0 <= j < |segs| ==> rebased[j] == (if j < i then Rebased(segs, alloc)[j] else segs[j])
    {
      DataTurn(bs[next..], segs, i, data);
      if segs[i].len == 0 {
        assert bs[next..][..0] == [] && bs[next..][0..] == bs[next..];
        data := data + [[]];
      } else {
        var bytes;
        ok, bytes, next := Get(bs, next, segs[i].len);
        if !ok {
          return;
        }
        rebased, data := rebased[i := Segment(alloc(i), segs[i].len)], data + [bytes];
      }
      i := i + 1;
    }
  }

  /** A single memory handle (1313-1323). */
  method ReadOneMem(bs: seq<Byte>, pos: nat) returns (ok: bool, mems: seq<NaMem>, next: nat)
    requires pos <= |bs|
    ensures ReadsAs(bs, ParseOneMem(bs[pos..]), ok, mems, next)
  {
    var n, data;
    mems := [];
    ok, n, next := ReadWord(bs, pos);
    if ok {
      ok, data, next := Get(bs, next, n);
      mems := [Some(data)];
    }
  }

  /** The memory handles of lines 1303-1363. */
  method ReadMems(bs: seq<Byte>, pos: nat, segs: seq<Segment>, f: Flags) returns (ok: bool, mems: seq<NaMem>, next: nat)
    requires pos <= |bs|
    ensures ReadsAs(bs, ParseMems(bs[pos..], segs, f), ok, mems, next)
  {
    if Single(|segs|, f) {
      ok, mems, next := true, [None], pos;
      if f.regv || (|segs| > 0 && segs[0].base != 0) {
        ok, mems, next := ReadOneMem(bs, pos);
      }
    } else {
      var sizes;
      mems := [];
      ok, sizes, next := ReadSizes(bs, pos, |segs|);
      if ok {
        ok, mems, next := ReadBlobs(bs, next, segs, sizes);
      }
    }
  }

  /** Address information (1365-1384). */
  method ReadBind(bs: seq<Byte>, pos: nat, f: Flags) returns (ok: bool, bound: Bound, next: nat)
    requires pos <= |bs|
    ensures ReadsAs(bs, ParseBind(bs[pos..], f), ok, bound, next)
  {
    ok, bound, next := true, Bound([], 0), pos;
    if f.bind {
      var n, addr, id;
      ok, n, next := ReadWord(bs, pos);
      if ok {
        ghost var rest := bs[next..];
        ok, addr, next := Get(bs, next, n);
        if ok {
          assert bs[next..] == rest[n..];
          ok, id, next := Get(bs, next, 1);
          if ok {
            assert rest[n] == id[0] && bs[next..] == rest[n + 1..];
            bound := Bound(addr, id[0]);
          }
        }
      }
    }
  }

  /** hg_bulk_deserialize (1252-1422). */
  method Deserialize(bs: seq<Byte>, alloc: nat -> nat) returns (r: Option<Bulk>)
    ensures r == BulkCodec.Deserialize(bs, alloc)
  {
    assert bs[0..] == bs;
    var ok, info, next := ReadInfo(bs, 0);
    if !ok {
      return None;
    }
    var segs, mems, bound;
    ok, segs, next := ReadSegments(bs, next, info.count);
    if !ok {
      return None;
    }
    ok, mems, next := ReadMems(bs, next, segs, info.flags);
    if !ok {
      return None;
    }
    ok, bound, next := ReadBind(bs, next, info.flags);
    if !ok {
      return None;
    }
    if !info.flags.eager {
      return Some(
          Bulk(info.len, segs, info.flags.(virt := true), info.pad, mems, bound.addr, bound.contextId, true, []));
    }
    var data, rebased;
    ok, data, rebased, next := ReadData(bs, next, segs, alloc);
    if !ok {
      return None;
    }
    return Some(
        Bulk(info.len, rebased, info.flags.(alloc := true), info.pad, mems, bound.addr, bound.contextId, true, data));
  }
}
