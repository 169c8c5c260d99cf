/**
 hg_proc_hg_bulk_t of src/mercury_proc_bulk.c: a bulk handle as one field of a
 serialized structure.  A size of zero stands for HG_BULK_NULL; eager data is
 embedded only if it fits into what is left of the buffer; a handle that was
 decoded before is written from its cached bytes when the size has not changed.
 */
module ProcBulk {
  import opened Bytes
  import opened BulkCodec
  import BulkWire
  import Proc

  /** Whether the data is embedded (lines 59-75). */
  predicate TriesEager(b: Bulk, wanted: bool, sizeLeft: nat)
    requires Shaped(b)
  {
    wanted && sizeLeft >= SerializeSize(b, true) + 8
  }

  /** The serialized handle, or its cached bytes when they have the size asked for (83-92). */
  function HandleBytes(b: Bulk, eager: bool, cached: seq<Byte>): seq<Byte>
    requires Shaped(b)
  {
    if |cached| == SerializeSize(b, eager) then cached else Wire(b, eager)
  }

  /** What is encoded for a handle. */
  function FieldBytes(h: Option<Bulk>, wanted: bool, sizeLeft: nat, cached: seq<Byte>): seq<Byte>
    requires h.Some? ==> Shaped(h.value)
  {
    if h.None? then Encode(0, 8)
    else
      var eager := TriesEager(h.value, wanted, sizeLeft);
      Encode(SerializeSize(h.value, eager), 8) + HandleBytes(h.value, eager, cached)
  }

  /** What is decoded, and the bytes cached with the handle (95-120). */
  function ReadField(bs: seq<Byte>, alloc: nat -> nat): Parsed<(Option<Bulk>, seq<Byte>)>
  {
    match ParseWord(bs)
    case Overflow => Overflow
    case Parsed(n, rest) =>
      if n == 0 then Parsed((None, []), rest)
      else if n > |rest| then Overflow
      else
        match Deserialize(rest[..n], alloc)
        case None => Overflow
        case Some(b) => Parsed((Some(b), rest[..n]), rest[n..])
  }

  lemma NullRoundTrip(wanted: bool, sizeLeft: nat, rest: seq<Byte>, alloc: nat -> nat)
    ensures ReadField(FieldBytes(None, wanted, sizeLeft, []) + rest, alloc) == Parsed((None, []), rest)
  {
    var bs := Encode(0, 8) + rest;
    assert bs[..8] == Encode(0, 8) && bs[8..] == rest;
    assert 0 < Pow256(8);
    DecodeEncode(0, 8);
  }

  lemma SizedRoundTrip(w: seq<Byte>, b: Bulk, rest: seq<Byte>, alloc: nat -> nat)
    requires 0 < |w| < Pow256(8) && Deserialize(w, alloc) == Some(b)
    ensures ReadField((Encode(|w|, 8) + w) + rest, alloc) == Parsed((Some(b), w), rest)
  {
    SizePrefix(w, rest);
    Split([], w, rest);
  }

  lemma NotCached(b: Bulk, eager: bool)
    requires Consistent(b) && Registered(b)
    ensures HandleBytes(b, eager, []) == Wire(b, eager) && |Wire(b, eager)| == SerializeSize(b, eager) > 0
  {
    SizeIsExact(b, eager);
  }

  /** A handle that was never decoded travels through the field unchanged, with its data exactly if that was embedded. */
  lemma HandleRoundTrip(b: Bulk, wanted: bool, sizeLeft: nat, rest: seq<Byte>, alloc: nat -> nat)
    requires Consistent(b) && Registered(b)
    requires SerializeSize(b, true) < Pow256(8) && SerializeSize(b, false) < Pow256(8)
    ensures var eager := TriesEager(b, wanted, sizeLeft);
            ReadField(FieldBytes(Some(b), wanted, sizeLeft, []) + rest, alloc)
            == Parsed((Some(Received(b, eager, alloc)), Wire(b, eager)), rest)
  {
    var eager := TriesEager(b, wanted, sizeLeft);
    NotCached(b, eager);
    ReadBack(b, eager, alloc);
    SizedRoundTrip(Wire(b, eager), Received(b, eager, alloc), rest, alloc);
  }

  /**
   A handle arrives with its data exactly when that was wanted, size and handle
   with data fit into the bytes left, and the handle may be sent so at all;
   otherwise it arrives without, describing the memory it described.
   */
  lemma ArrivesWithDataIff(b: Bulk, wanted: bool, sizeLeft: nat, rest: seq<Byte>, alloc: nat -> nat)
    requires Consistent(b) && Registered(b)
    requires SerializeSize(b, true) < Pow256(8) && SerializeSize(b, false) < Pow256(8)
    ensures var p := ReadField(FieldBytes(Some(b), wanted, sizeLeft, []) + rest, alloc);
            && p.Parsed? && p.value.0.Some?
            && var got := p.value.0.value;
               var with := wanted && sizeLeft >= SerializeSize(b, true) + 8 && b.flags.readOnly && !b.flags.virt && b.host;
               && got.flags.eager == with && got.flags.virt == !with && got.data == (if with then b.data else [])
               && (!with ==> got.segs == b.segs) && got.len == b.len && got.mems == b.mems
  {
    HandleRoundTrip(b, wanted, sizeLeft, rest, alloc);
  }

  /** A handle is embedded with its data only where size and bytes fit what is left, so embedding never makes a buffer grow. */
  lemma EmbeddedDataFits(b: Bulk, wanted: bool, sizeLeft: nat)
    requires Consistent(b) && Registered(b) && TriesEager(b, wanted, sizeLeft)
    ensures |FieldBytes(Some(b), wanted, sizeLeft, [])| <= sizeLeft
  {
    NotCached(b, true);
  }

  /**
   A decoded handle of non-zero length that is encoded again from its cached
   bytes decodes to the same handle as from a fresh serialization, up to local
   addresses, however it was asked for.
   */
  lemma CacheIsTransparent(
    b: Bulk, asked: bool, wanted: bool, sizeLeft: nat, alloc: nat -> nat, alloc1: nat -> nat, alloc2: nat -> nat)
    requires Consistent(b) && Registered(b) && Based(b) && Allocates(b, alloc) && b.len > 0
    requires SerializeSize(Received(b, asked, alloc), true) < Pow256(8)
    ensures var d := Received(b, asked, alloc);
            && Shaped(d)
            && var eager := TriesEager(d, wanted, sizeLeft);
               var x, y := Deserialize(HandleBytes(d, eager, Wire(b, asked)), alloc1), Deserialize(HandleBytes(d, eager, []), alloc2);
               x.Some? && y.Some? && SameUpToAddresses(x.value, y.value)
  {
    var d := Received(b, asked, alloc);
    ReceivedIsSound(b, asked, alloc);
    var eager := TriesEager(d, wanted, sizeLeft);
    SizeIsExact(d, eager);
    ReadBack(d, eager, alloc2);
    if |Wire(b, asked)| == SerializeSize(d, eager) {
      CachedBytesAreAsGood(b, asked, eager, alloc, alloc1, alloc2);
    } else {
      ReadBack(d, eager, alloc1);
      SentTwice(d, eager, alloc1, alloc2);
    }
  }

  lemma SentTwice(d: Bulk, eager: bool, alloc1: nat -> nat, alloc2: nat -> nat)
    ensures SameUpToAddresses(Received(d, eager, alloc1), Received(d, eager, alloc2))
  {
  }

  /** The encodings that make up the field: the size, then the handle. */
  function FieldItems(h: Option<Bulk>, wanted: bool, sizeLeft: nat, cached: seq<Byte>): seq<seq<Byte>>
    requires h.Some? ==> Shaped(h.value)
  {
    if h.None? then [Encode(0, 8)]
    else
      var eager := TriesEager(h.value, wanted, sizeLeft);
      [Encode(SerializeSize(h.value, eager), 8), HandleBytes(h.value, eager, cached)]
  }

  lemma ItemsAreField(h: Option<Bulk>, wanted: bool, sizeLeft: nat, cached: seq<Byte>)
    requires h.Some? ==> Shaped(h.value)
    ensures Concat(FieldItems(h, wanted, sizeLeft, cached)) == FieldBytes(h, wanted, sizeLeft, cached)
  {
    var items := FieldItems(h, wanted, sizeLeft, cached);
    assert Concat(items) == items[0] + Concat(items[1..]);
    if h.Some? {
      assert Concat(items[1..]) == items[1] + Concat(items[1..][1..]);
    }
  }

  // ---------------------------------------------------------- on a proc buffer

  /** There is room for `size` more bytes behind those of `v`, and `w` counts them as used. */
  ghost predicate Reserved(v: Proc.View, w: Proc.View, size: nat, page: nat)
    requires page > 0
  {
    && w.first == v.first && |w.used| == |v.used| + size && w.used[..|v.used|] == v.used
    && w.extra == (if |w.used| > Proc.Capacity(v) then Proc.WholePages(v.first + v.extra + size, page) else v.extra)
  }

  /** hg_proc_save_ptr when encoding. */
  method PlaceFor(proc: Proc.HgProc, size: nat) returns (buf: array<Byte>, at: nat)
    requires proc.Valid() && proc.op == Proc.ENCODE
    modifies proc
    ensures proc.Valid() && proc.op == Proc.ENCODE && proc.procBuf == old(proc.procBuf) && proc.bulkEager == old(proc.bulkEager)
    ensures proc.extraBuf == old(proc.extraBuf) || (proc.extraBuf != null && fresh(proc.extraBuf))
    ensures buf == (if proc.extraBuf == null then proc.procBuf else proc.extraBuf) && at + size == proc.pos
    ensures at == |old(proc.Contents()).used| && Reserved(old(proc.Contents()), proc.Contents(), size, proc.page)
  {
    buf, at := proc.SavePtr(size);
    assert proc.Contents().used[..at] == buf[..at];
  }

  /** HG_Bulk_serialize at the place reserved for the handle. */
  method SerializeAt(proc: Proc.HgProc, buf: array<Byte>, at: nat, b: Bulk, eager: bool)
    requires proc.Valid() && Consistent(b) && Registered(b) && at + SerializeSize(b, eager) == proc.pos
    requires buf == if proc.extraBuf == null then proc.procBuf else proc.extraBuf
    modifies buf
    ensures proc.Valid() && |Wire(b, eager)| == SerializeSize(b, eager)
    ensures proc.Contents() == old(proc.Contents()).(used := old(proc.Contents()).used[..at] + Wire(b, eager))
  {
    ghost var before, v := buf[..], proc.Contents();
    assert before[..at] == v.used[..at];
    var ok := BulkWire.Serialize(buf, at, proc.pos, b, eager);
    ghost var after := buf[..];
    assert after[..proc.pos] == v.used[..at] + Wire(b, eager);
    assert proc.Used() == after[..proc.pos];
  }

  lemma FilledIsEncoded(v: Proc.View, w: Proc.View, data: seq<Byte>, page: nat)
    requires page > 0 && Reserved(v, w, |data|, page)
    ensures w.(used := w.used[..|v.used|] + data) == Proc.Encoded(v, data, page)
  {
  }

  /** The handle serialized where hg_proc_save_ptr points (87-90). */
  method SerializeInto(proc: Proc.HgProc, b: Bulk, eager: bool)
    requires proc.Valid() && proc.op == Proc.ENCODE && Consistent(b) && Registered(b)
    modifies proc, proc.procBuf, proc.extraBuf
    ensures proc.Valid() && proc.op == Proc.ENCODE && proc.procBuf == old(proc.procBuf) && proc.bulkEager == old(proc.bulkEager)
    ensures proc.extraBuf == old(proc.extraBuf) || (proc.extraBuf != null && fresh(proc.extraBuf))
    ensures proc.Contents() == Proc.Encoded(old(proc.Contents()), Wire(b, eager), proc.page)
  {
    ghost var v := proc.Contents();
    var buf, at := PlaceFor(proc, SerializeSize(b, eager));
    ghost var w := proc.Contents();
    SerializeAt(proc, buf, at, b, eager);
    FilledIsEncoded(v, w, Wire(b, eager), proc.page);
  }

  /** The encoding branch (41-93) on a serialization buffer. */
  method EncodeHandle(proc: Proc.HgProc, h: Option<Bulk>, cached: seq<Byte>)
    requires proc.Valid() && proc.op == Proc.ENCODE
    requires h.Some? ==> Consistent(h.value) && Registered(h.value)
    modifies proc, proc.procBuf, proc.extraBuf
    ensures proc.Valid() && proc.op == Proc.ENCODE && proc.procBuf == old(proc.procBuf) && proc.bulkEager == old(proc.bulkEager)
    ensures proc.extraBuf == old(proc.extraBuf) || (proc.extraBuf != null && fresh(proc.extraBuf))
    ensures proc.Contents() == Proc.EncodedAll(
        old(proc.Contents()), FieldItems(h, proc.bulkEager, old(proc.SizeLeft()), cached), proc.page)
  {
    if h.None? {
      OneItem(proc.Contents(), Encode(0, 8), proc.page);
      proc.Encode(Encode(0, 8));
      return;
    }
    var tryEager := false;
    if proc.bulkEager && proc.SizeLeft() >= SerializeSize(h.value, true) + 8 {
      tryEager := true;
    }
    var size := SerializeSize(h.value, tryEager);
    TwoItems(proc.Contents(), Encode(size, 8), HandleBytes(h.value, tryEager, cached), proc.page);
    proc.Encode(Encode(size, 8));
    if size == |cached| {
      proc.Encode(cached);
    } else {
      SerializeInto(proc, h.value, tryEager);
    }
  }

  lemma OneItem(v: Proc.View, x: seq<Byte>, page: nat)
    requires page > 0
    ensures Proc.EncodedAll(v, [x], page) == Proc.Encoded(v, x, page)
  {
    assert [x][1..] == [];
  }

  lemma TwoItems(v: Proc.View, x: seq<Byte>, y: seq<Byte>, page: nat)
    requires page > 0
    ensures Proc.EncodedAll(v, [x, y], page) == Proc.Encoded(Proc.Encoded(v, x, page), y, page)
  {
    assert [x, y][1..] == [y];
    OneItem(Proc.Encoded(v, x, page), y, page);
  }

  /** The size word and the bytes it announces are in the buffer. */
  predicate HoldsField(bs: seq<Byte>)
  {
    8 <= |bs| && Decode(bs[..8]) <= |bs| - 8
  }

  /** The size word, and a place in the buffer for the bytes it announces. */
  method TakeField(proc: Proc.HgProc) returns (bytes: seq<Byte>)
    requires proc.Valid() && proc.op == Proc.DECODE
    modifies proc
    ensures proc.Valid() && proc.op == Proc.DECODE && proc.procBuf == old(proc.procBuf)
    ensures HoldsField(old(proc.Ahead())) ==>
      var n, rest := Decode(old(proc.Ahead())[..8]), old(proc.Ahead())[8..];
      bytes == rest[..n] && proc.Ahead() == rest[n..]
  {
    ghost var ahead := proc.Ahead();
    var data := proc.Decode(8);
    var n := Decode(data);
    if n == 0 {
      return [];
    }
    var buf, at := proc.SavePtr(n);
    bytes := buf[at..at + n];
    if HoldsField(ahead) {
      assert buf[at..] == ahead[8..] && bytes == buf[at..][..n] && proc.Ahead() == buf[at..][n..];
    }
  }

  /** The field is read from its bytes; without them it cannot be. */
  lemma FieldFromBytes(bs: seq<Byte>, alloc: nat -> nat)
    ensures !HoldsField(bs) ==> ReadField(bs, alloc) == Overflow
    ensures HoldsField(bs) ==>
      var n, rest := Decode(bs[..8]), bs[8..];
      ReadField(bs, alloc) ==
      if n == 0 then Parsed((None, []), rest)
      else match Deserialize(rest[..n], alloc)
           case None => Overflow
           case Some(b) => Parsed((Some(b), rest[..n]), rest[n..])
  {
  }

  /**
   The decoding branch (95-120) on a serialization buffer that holds the field:
   it fails exactly when the handle cannot be deserialized, and otherwise the
   handle, its cached bytes and what is left to decode are those of the field.
   */
  method DecodeHandle(proc: Proc.HgProc, alloc: nat -> nat) returns (ok: bool, h: Option<Bulk>, cached: seq<Byte>)
    requires proc.Valid() && proc.op == Proc.DECODE
    modifies proc
    ensures proc.Valid() && proc.op == Proc.DECODE && proc.procBuf == old(proc.procBuf)
    ensures HoldsField(old(proc.Ahead())) ==> (ok <==> ReadField(old(proc.Ahead()), alloc).Parsed?)
    ensures ReadField(old(proc.Ahead()), alloc).Parsed? ==>
      ok && ReadField(old(proc.Ahead()), alloc) == Parsed((h, cached), proc.Ahead())
  {
    FieldFromBytes(proc.Ahead(), alloc);
    cached := TakeField(proc);
    if cached == [] {
      return true, None, [];
    }
    h := BulkWire.Deserialize(cached, alloc);
    ok := h.Some?;
  }
}
