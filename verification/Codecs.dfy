/**
 Serialization callbacks for structures, as users of Mercury write them or
 MERCURY_GEN_PROC generates them: fields encoded one after the other into a proc
 buffer and decoded in the same order.
 */
module Codecs {
  import opened Bytes
  import opened BulkCodec
  import opened ProcBulk
  import Proc

  /**
   A structure's own serialization callback: the fields it encodes in turn, what
   it reads back, and when a structure read back is as good as the one written
   (a bulk handle arrives as a remote one).
   */
  datatype Codec<!T> = Codec(fields: T -> seq<Proc.Field>, read: seq<Byte> -> Parsed<T>, same: (T, T) -> bool)

  /** What the fields of `x` write for the given rooms is read back, whatever follows. */
  ghost predicate ReadsAt<T>(c: Codec<T>, x: T, rooms: seq<nat>, rest: seq<Byte>)
    requires |rooms| == |c.fields(x)|
  {
    var p := c.read(Proc.Laid(c.fields(x), rooms) + rest);
    p.Parsed? && p.rest == rest && c.same(x, p.value)
  }

  /** The callback reads back what it wrote for `x`, whatever room its fields saw and whatever follows. */
  ghost predicate ReadsBack<T>(c: Codec<T>, x: T)
  {
    forall rooms: seq<nat>, rest: seq<Byte> :: |rooms| == |c.fields(x)| ==> ReadsAt(c, x, rooms, rest)
  }

  lemma OneField(items: seq<seq<Byte>>, fields: seq<Proc.Field>, rooms: seq<nat>)
    requires |fields| == |rooms| == 1 && fields[0](rooms[0]) == items
    ensures Proc.Laid(fields, rooms) == Concat(items)
  {
    assert Proc.Laid(fields[1..], rooms[1..]) == [];
  }

  /** hg_proc_uint64_t. */
  function Word(): Codec<nat>
  {
    Codec((x: nat) => [(left: nat) => [Encode(x, 8)]], ParseWord, (x: nat, y: nat) => x == y)
  }

  lemma WordParses(x: nat, rest: seq<Byte>)
    requires x < Pow256(8)
    ensures ParseWord(Concat([Encode(x, 8)]) + rest) == Parsed(x, rest)
  {
    assert Concat([Encode(x, 8)]) == Encode(x, 8);
    var bs := Encode(x, 8) + rest;
    assert bs[..8] == Encode(x, 8) && bs[8..] == rest;
    DecodeEncode(x, 8);
  }

  lemma WordReadsBack(x: nat)
    requires x < Pow256(8)
    ensures ReadsBack(Word(), x)
  {
    forall rooms: seq<nat>, rest: seq<Byte> | |rooms| == |Word().fields(x)|
      ensures ReadsAt(Word(), x, rooms, rest)
    {
      OneField([Encode(x, 8)], Word().fields(x), rooms);
      WordParses(x, rest);
    }
  }

  /** What a handle becomes on the other side, with or without its data, up to addresses allocated there. */
  predicate RemoteViewOf(b: Bulk, got: Bulk, alloc: nat -> nat)
  {
    SameUpToAddresses(got, Received(b, true, alloc)) || SameUpToAddresses(got, Received(b, false, alloc))
  }

  /**
   What that comes to: the same length, segment sizes, memory handles and access,
   the sender's address and context exactly if they were bound to the handle, and
   either the data itself, in memory of the receiver, or the addresses it has at
   the sender, marked as not being the receiver's.
   */
  lemma RemoteViewMeans(b: Bulk, got: Bulk, alloc: nat -> nat)
    requires RemoteViewOf(b, got, alloc)
    ensures got.len == b.len && got.mems == b.mems && |got.segs| == |b.segs|
    ensures forall i :: 0 <= i < |b.segs| ==> got.segs[i].len == b.segs[i].len
    ensures got.flags.readOnly == b.flags.readOnly && got.flags.writeOnly == b.flags.writeOnly && got.flags.regv == b.flags.regv
    ensures got.addr == (if b.flags.bind then b.addr else []) && got.contextId == (if b.flags.bind then b.contextId else 0)
    ensures if got.flags.eager then b.flags.readOnly && !b.flags.virt && b.host && got.flags.alloc && got.data == b.data
            else got.flags.virt && !got.flags.alloc && got.data == [] && got.segs == b.segs
  {
  }

  /** hg_proc_hg_bulk_t for a handle and the bytes cached with it, none if it was never decoded. */
  function Handle(wanted: bool, alloc: nat -> nat): Codec<(Option<Bulk>, seq<Byte>)>
  {
    Codec(
      (h: (Option<Bulk>, seq<Byte>)) =>
        [(left: nat) => if h.0.Some? && !Shaped(h.0.value) then [] else FieldItems(h.0, wanted, left, h.1)],
      (bs: seq<Byte>) => ReadField(bs, alloc),
      (x: (Option<Bulk>, seq<Byte>), y: (Option<Bulk>, seq<Byte>)) =>
        if x.0.None? then y.0.None? else y.0.Some? && RemoteViewOf(x.0.value, y.0.value, alloc))
  }

  lemma ReceivedIsView(b: Bulk, eager: bool, alloc: nat -> nat)
    ensures RemoteViewOf(b, Received(b, eager, alloc), alloc)
  {
  }

  lemma NullReadsBack(wanted: bool, alloc: nat -> nat)
    ensures ReadsBack(Handle(wanted, alloc), (None, []))
  {
    var c, x: (Option<Bulk>, seq<Byte>) := Handle(wanted, alloc), (None, []);
    forall rooms: seq<nat>, rest: seq<Byte> | |rooms| == |c.fields(x)|
      ensures ReadsAt(c, x, rooms, rest)
    {
      OneField(FieldItems(None, wanted, rooms[0], []), c.fields(x), rooms);
      ItemsAreField(None, wanted, rooms[0], []);
      NullRoundTrip(wanted, rooms[0], rest, alloc);
    }
  }

  /** A handle that was never decoded reads back as its remote view, with or without its data as the room allowed. */
  lemma HandleReadsBack(b: Bulk, wanted: bool, alloc: nat -> nat)
    requires Consistent(b) && Registered(b) && SerializeSize(b, true) < Pow256(8) && SerializeSize(b, false) < Pow256(8)
    ensures ReadsBack(Handle(wanted, alloc), (Some(b), []))
  {
    var c, x := Handle(wanted, alloc), (Some(b), []);
    forall rooms: seq<nat>, rest: seq<Byte> | |rooms| == |c.fields(x)|
      ensures ReadsAt(c, x, rooms, rest)
    {
      OneField(FieldItems(Some(b), wanted, rooms[0], []), c.fields(x), rooms);
      ItemsAreField(Some(b), wanted, rooms[0], []);
      HandleRoundTrip(b, wanted, rooms[0], rest, alloc);
      ReceivedIsView(b, TriesEager(b, wanted, rooms[0]), alloc);
    }
  }

  /** Sent on from its cached bytes or serialized again, a received handle arrives as a remote view of what was received. */
  lemma SentOnDecodes(b: Bulk, asked: bool, eager: bool, alloc0: nat -> nat, alloc: nat -> nat)
    requires Consistent(b) && Registered(b) && Based(b) && Allocates(b, alloc0)
    ensures var d := Received(b, asked, alloc0);
            && Shaped(d)
            && var r := Deserialize(HandleBytes(d, eager, Wire(b, asked)), alloc);
               |HandleBytes(d, eager, Wire(b, asked))| == SerializeSize(d, eager) > 0 && r.Some? && RemoteViewOf(d, r.value, alloc)
  {
    var d := Received(b, asked, alloc0);
    ReceivedIsSound(b, asked, alloc0);
    SizeIsExact(d, eager);
    if |Wire(b, asked)| == SerializeSize(d, eager) {
      ReadBack(b, asked, alloc);
      SentOnUnchanged(b, asked, Eager(b, asked), alloc0, alloc, alloc);
    } else {
      ReadBack(d, eager, alloc);
    }
  }

  /** So does a handle that was decoded before and is sent on with its cached bytes. */
  lemma RelayedReadsBack(b: Bulk, asked: bool, wanted: bool, alloc0: nat -> nat, alloc: nat -> nat)
    requires Consistent(b) && Registered(b) && Based(b) && Allocates(b, alloc0)
    requires var d := Received(b, asked, alloc0);
             Shaped(d) && SerializeSize(d, true) < Pow256(8) && SerializeSize(d, false) < Pow256(8)
    ensures ReadsBack(Handle(wanted, alloc), (Some(Received(b, asked, alloc0)), Wire(b, asked)))
  {
    var c, d, cached := Handle(wanted, alloc), Received(b, asked, alloc0), Wire(b, asked);
    var x := (Some(d), cached);
    forall rooms: seq<nat>, rest: seq<Byte> | |rooms| == |c.fields(x)|
      ensures ReadsAt(c, x, rooms, rest)
    {
      OneField(FieldItems(Some(d), wanted, rooms[0], cached), c.fields(x), rooms);
      ItemsAreField(Some(d), wanted, rooms[0], cached);
      var eager := TriesEager(d, wanted, rooms[0]);
      SentOnDecodes(b, asked, eager, alloc0, alloc);
      var w := HandleBytes(d, eager, cached);
      SizedRoundTrip(w, Deserialize(w, alloc).value, rest, alloc);
    }
  }

  function ReadPair<T, U>(c: Codec<T>, d: Codec<U>, bs: seq<Byte>): Parsed<(T, U)>
  {
    match c.read(bs)
    case Overflow => Overflow
    case Parsed(x, rest) =>
      match d.read(rest)
      case Overflow => Overflow
      case Parsed(y, more) => Parsed((x, y), more)
  }

  /** A structure made of two others, as MERCURY_GEN_PROC strings its fields together. */
  function Pair<T, U>(c: Codec<T>, d: Codec<U>): Codec<(T, U)>
  {
    Codec(
      (x: (T, U)) => c.fields(x.0) + d.fields(x.1),
      (bs: seq<Byte>) => ReadPair(c, d, bs),
      (x: (T, U), y: (T, U)) => c.same(x.0, y.0) && d.same(x.1, y.1))
  }

  lemma PairAt<T, U>(c: Codec<T>, d: Codec<U>, x: T, y: U, rooms: seq<nat>, more: seq<nat>, rest: seq<Byte>)
    requires |rooms| == |c.fields(x)| && |more| == |d.fields(y)|
    requires ReadsAt(c, x, rooms, Proc.Laid(d.fields(y), more) + rest) && ReadsAt(d, y, more, rest)
    ensures var p := ReadPair(c, d, (Proc.Laid(c.fields(x), rooms) + Proc.Laid(d.fields(y), more)) + rest);
            p.Parsed? && p.rest == rest && c.same(x, p.value.0) && d.same(y, p.value.1)
  {
    Reassociate(Proc.Laid(c.fields(x), rooms), Proc.Laid(d.fields(y), more), rest);
  }

  lemma Reassociate(x: seq<Byte>, y: seq<Byte>, z: seq<Byte>)
    ensures (x + y) + z == x + (y + z)
  {
  }

  /** Structures of any number of fields, bulk handles among them, read back if their fields do. */
  lemma PairReadsBack<T, U>(c: Codec<T>, d: Codec<U>, x: T, y: U)
    requires ReadsBack(c, x) && ReadsBack(d, y)
    ensures ReadsBack(Pair(c, d), (x, y))
  {
    forall rooms: seq<nat>, rest: seq<Byte> | |rooms| == |Pair(c, d).fields((x, y))|
      ensures ReadsAt(Pair(c, d), (x, y), rooms, rest)
    {
      var k := |c.fields(x)|;
      Proc.LaidTogether(c.fields(x), d.fields(y), rooms);
      PairAt(c, d, x, y, rooms[..k], rooms[k..], rest);
    }
  }
}
