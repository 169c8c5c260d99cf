/**
 From HG_Forward to HG_Get_input, and from HG_Respond to HG_Get_output
 (hg_set_struct, hg_get_struct and hg_get_extra_payload of src/mercury.c): a
 payload that does not fit into the message is left in the extra buffer, and
 the message carries a bulk descriptor by which the other side pulls it.
 */
module Payload {
  import opened Bytes
  import opened BulkCodec
  import opened Codecs
  import opened ProcBulk
  import BulkEngine
  import BulkTransfer
  import Proc

  /**
   The sending side: room for the payload in the message, page size, whether
   eager bulk transfers are to be tried, where the extra buffer lies and what
   NA serializes its registration to.
   */
  datatype Site = Site(room: nat, page: nat, wanted: bool, extraAddr: nat, mem: seq<Byte>, pad: seq<Byte>)

  /** HG_Bulk_create for the bytes used of the extra buffer (lines 663-673). */
  function ExtraBulk(s: Site, used: seq<Byte>): Bulk
  {
    Bulk(|used|, [Segment(s.extraAddr, |used|)], Flags(true, false, false, false, false, false, false, false),
         s.pad, [Some(s.mem)], [], 0, true, [used])
  }

  /** What a message carries: the payload, or a descriptor and the bytes left behind in the extra buffer. */
  datatype Outcome = Sent(body: seq<Byte>, left: Option<seq<Byte>>) | Overflowed

  function Written<T>(c: Codec<T>, x: T, s: Site): Proc.View
    requires s.page > 0
  {
    Proc.EncodedFields(Proc.Fresh(s.room), c.fields(x), s.page)
  }

  /** The payload: what the fields choose to write for the room they see. */
  function Chosen<T>(c: Codec<T>, x: T, s: Site): seq<Byte>
    requires s.page > 0
  {
    Proc.Laid(c.fields(x), Proc.Rooms(Proc.Fresh(s.room), c.fields(x), s.page))
  }

  /** The descriptor takes the place of the payload (675-706). */
  function Described(b: Bulk, s: Site): Proc.View
    requires s.page > 0 && Shaped(b)
  {
    Proc.EncodedAll(Proc.Fresh(s.room), FieldItems(Some(b), s.wanted, s.room, []), s.page)
  }

  /** hg_set_struct (538-727). */
  function SetStruct<T>(c: Codec<T>, x: T, s: Site): Outcome
    requires s.page > 0 && |s.pad| == 3
  {
    var v := Written(c, x, s);
    if v.extra == 0 then Sent(v.used, None)
    else
      var d := Described(ExtraBulk(s, v.used), s);
      if d.extra != 0 then Overflowed else Sent(d.used, Some(v.used))
  }

  /** Addresses and sizes fit their fields. */
  ghost predicate SiteOk(s: Site)
  {
    s.page > 0 && |s.pad| == 3 && 0 < s.extraAddr < Pow256(8) && |s.mem| < Pow256(8)
  }

  lemma ExtraBulkSound(s: Site, used: seq<Byte>)
    requires SiteOk(s) && 0 < |used| < Pow256(8)
    ensures Consistent(ExtraBulk(s, used)) && Registered(ExtraBulk(s, used))
    ensures SerializeSize(ExtraBulk(s, used), false) == 16 + 16 + 8 + |s.mem|
    ensures SerializeSize(ExtraBulk(s, used), true) == 16 + 16 + 8 + |s.mem| + |used|
  {
    assert 1 < Pow256(4);
    var b := ExtraBulk(s, used);
    assert b.segs[1..] == [];
    assert TotalLen(b.segs) == b.segs[0].len + TotalLen(b.segs[1..]);
  }

  /** A payload that needed the extra buffer is larger than the message, so it is never embedded as eager data. */
  lemma OverflowNeverEager(s: Site, used: seq<Byte>)
    requires SiteOk(s) && s.room < |used| < Pow256(8)
    ensures !TriesEager(ExtraBulk(s, used), s.wanted, s.room)
  {
    ExtraBulkSound(s, used);
  }

  /** What is written are the bytes of the fields, and they need the extra buffer exactly when they exceed the room. */
  lemma WrittenPayload<T>(c: Codec<T>, x: T, s: Site)
    requires s.page > 0
    ensures Written(c, x, s).used == Chosen(c, x, s)
    ensures Written(c, x, s).extra != 0 <==> |Chosen(c, x, s)| > s.room
  {
    Proc.FieldsConcatenate(Proc.Fresh(s.room), c.fields(x), s.page);
    assert [] + Chosen(c, x, s) == Chosen(c, x, s);
  }

  /** The size the descriptor needs. */
  function DescriptorSize(s: Site): nat
  {
    8 + 16 + 16 + 8 + |s.mem|
  }

  lemma DescribedField(s: Site, used: seq<Byte>)
    requires SiteOk(s) && s.room < |used| < Pow256(8)
    ensures Described(ExtraBulk(s, used), s).used == FieldBytes(Some(ExtraBulk(s, used)), s.wanted, s.room, [])
    ensures |Described(ExtraBulk(s, used), s).used| == DescriptorSize(s)
    ensures Described(ExtraBulk(s, used), s).extra != 0 <==> DescriptorSize(s) > s.room
  {
    var b := ExtraBulk(s, used);
    ExtraBulkSound(s, used);
    OverflowNeverEager(s, used);
    NotCached(b, false);
    ItemsAreField(Some(b), s.wanted, s.room, []);
    Proc.EncodingsConcatenate(Proc.Fresh(s.room), FieldItems(Some(b), s.wanted, s.room, []), s.page);
    var field := FieldBytes(Some(b), s.wanted, s.room, []);
    assert [] + field == field;
  }

  /** HG_OVERFLOW is answered exactly when neither the payload nor a descriptor of it fits. */
  lemma OverflowIff<T>(c: Codec<T>, x: T, s: Site)
    requires SiteOk(s) && |Chosen(c, x, s)| < Pow256(8)
    ensures SetStruct(c, x, s).Overflowed? <==> |Chosen(c, x, s)| > s.room && DescriptorSize(s) > s.room
  {
    WrittenPayload(c, x, s);
    if |Chosen(c, x, s)| > s.room {
      DescribedField(s, Chosen(c, x, s));
    }
  }

  // ------------------------------------------------------------- receiving side

  /** The handle that the receiver of a descriptor decodes (hg_get_extra_payload, 847-852). */
  function Announced(area: seq<Byte>, alloc: nat -> nat): Option<Bulk>
  {
    match ReadField(area, alloc)
    case Overflow => None
    case Parsed(h, _) => h.0
  }

  /**
   The region that NA memory handles denote: `na` says which region the sender
   registered for which handle.  A handle for a whole region is looked up once,
   others segment by segment.
   */
  function Denoted(b: Bulk, na: map<seq<Byte>, seq<Segment>>): Option<seq<Segment>>
  {
    if Single(|b.segs|, b.flags) then
      if |b.mems| > 0 && b.mems[0].Some? && b.mems[0].value in na then Some(na[b.mems[0].value]) else None
    else DenotedEach(b.mems, na)
  }

  function DenotedEach(mems: seq<NaMem>, na: map<seq<Byte>, seq<Segment>>): Option<seq<Segment>>
  {
    if mems == [] then Some([])
    else
      var rest := DenotedEach(mems[1..], na);
      if rest.None? then None
      else if mems[0].None? then Some([Segment(0, 0)] + rest.value)
      else if mems[0].value in na && |na[mems[0].value]| == 1 then Some(na[mems[0].value] + rest.value)
      else None
  }

  /** hg_get_struct (427-534): read from the pulled buffer when there is one. */
  function GetStruct<T>(c: Codec<T>, area: seq<Byte>, pulled: Option<seq<Byte>>): Option<T>
  {
    match c.read(if pulled.Some? then pulled.value else area)
    case Overflow => None
    case Parsed(x, _) => Some(x)
  }

  /** The structure got is as good as the one sent. */
  ghost predicate Arrived<T>(c: Codec<T>, x: T, got: Option<T>)
  {
    got.Some? && c.same(x, got.value)
  }

  lemma ReadBehind<T>(c: Codec<T>, x: T, s: Site, rest: seq<Byte>)
    requires ReadsBack(c, x) && s.page > 0
    ensures Arrived(c, x, GetStruct(c, Chosen(c, x, s) + rest, None))
    ensures Arrived(c, x, GetStruct(c, rest, Some(Chosen(c, x, s))))
  {
    var rooms := Proc.Rooms(Proc.Fresh(s.room), c.fields(x), s.page);
    assert ReadsAt(c, x, rooms, rest) && ReadsAt(c, x, rooms, []);
    assert Chosen(c, x, s) + [] == Chosen(c, x, s);
  }

  /** A payload that fits is read back from the message, whatever the buffer holds behind it. */
  lemma InPlace<T>(c: Codec<T>, x: T, s: Site, rest: seq<Byte>)
    requires ReadsBack(c, x) && SiteOk(s) && |Chosen(c, x, s)| <= s.room
    ensures SetStruct(c, x, s) == Sent(Chosen(c, x, s), None)
    ensures Arrived(c, x, GetStruct(c, Chosen(c, x, s) + rest, None))
  {
    WrittenPayload(c, x, s);
    ReadBehind(c, x, s, rest);
  }

  /**
   A descriptor announces exactly the bytes used of the extra buffer, by its
   address and by the NA memory handle it was registered with, as a read-only
   region in another process.
   */
  lemma DescriptorAnnounces<T>(c: Codec<T>, x: T, s: Site, rest: seq<Byte>, alloc: nat -> nat)
    requires SiteOk(s) && s.room < |Chosen(c, x, s)| && DescriptorSize(s) <= s.room
    requires DescriptorSize(s) + |Chosen(c, x, s)| < Pow256(8)
    ensures var used := Chosen(c, x, s);
            && SetStruct(c, x, s).Sent? && SetStruct(c, x, s).left == Some(used)
            && |SetStruct(c, x, s).body| == DescriptorSize(s)
            && var b := Announced(SetStruct(c, x, s).body + rest, alloc);
               && b.Some? && b.value.len == |used| && b.value.segs == [Segment(s.extraAddr, |used|)] && b.value.mems == [Some(s.mem)]
               && b.value.flags == Flags(true, false, false, false, false, false, false, true)
  {
    var used := Chosen(c, x, s);
    WrittenPayload(c, x, s);
    DescribedField(s, used);
    ExtraBulkSound(s, used);
    OverflowNeverEager(s, used);
    HandleRoundTrip(ExtraBulk(s, used), s.wanted, s.room, rest, alloc);
  }

  function Whole(base: nat, n: nat): BulkTransfer.Side
  {
    BulkTransfer.Side([Segment(base, n)], 0)
  }

  lemma WholeAt(base: nat, n: nat, k: nat)
    requires k < n
    ensures BulkTransfer.Total(Whole(base, n).segs) == n && BulkTransfer.At(Whole(base, n), k) == base + k
  {
    BulkTransfer.AddrAt(Whole(base, n).segs, 0, k);
    assert BulkTransfer.Before(Whole(base, n).segs, 0) == 0;
    assert BulkTransfer.Before(Whole(base, n).segs, 1) == n;
  }

  lemma WholeInside(base: nat, n: nat, memory: nat)
    requires base + n <= memory
    ensures BulkTransfer.Inside(Whole(base, n), n, memory)
  {
    assert BulkTransfer.Before(Whole(base, n).segs, 0) == 0;
    assert BulkTransfer.Before(Whole(base, n).segs, 1) == n;
  }

  /** Two runs of memory apart from each other can be copied one onto the other. */
  lemma PullTransferable(from: nat, to: nat, n: nat, memory: nat)
    requires from + n <= memory && to + n <= memory && (from + n <= to || to + n <= from)
    ensures BulkTransfer.Transferable(Whole(from, n), Whole(to, n), false, n, memory)
  {
    WholeInside(from, n, memory);
    WholeInside(to, n, memory);
    forall k | 0 <= k < n
      ensures BulkTransfer.At(Whole(from, n), k) == from + k && BulkTransfer.At(Whole(to, n), k) == to + k
    {
      WholeAt(from, n, k);
      WholeAt(to, n, k);
    }
  }

  /** Pulling one segment into another is exact. */
  lemma PullIsExact(m: seq<Byte>, m': seq<Byte>, from: nat, to: nat, n: nat)
    requires BulkTransfer.Inside(Whole(to, n), n, |m|) && BulkTransfer.Inside(Whole(from, n), n, |m|)
    requires BulkTransfer.Copied(m, m', Whole(to, n), Whole(from, n), n) && from + n <= |m| && to + n <= |m|
    ensures |m'| == |m| && m'[to..to + n] == m[from..from + n]
  {
    var got, sent := m'[to..to + n], m[from..from + n];
    forall k | 0 <= k < n
      ensures got[k] == sent[k]
    {
      WholeAt(to, n, k);
      WholeAt(from, n, k);
      assert m'[BulkTransfer.At(Whole(to, n), k)] == m[BulkTransfer.At(Whole(from, n), k)];
    }
  }

  /** Where the bytes of a handle are: for a transfer with oneself at its addresses, otherwise where its NA handles say. */
  function Region(b: Bulk, isSelf: bool, na: map<seq<Byte>, seq<Segment>>): Option<seq<Segment>>
  {
    if isSelf then Some(b.segs) else Denoted(b, na)
  }

  /** HG_Bulk_transfer_id of all of the announced region into a buffer at `to` (869-873). */
  ghost function Pull(
    m: seq<Byte>, region: seq<Segment>, n: nat, to: nat, i: BulkTransfer.Issue, order: seq<BulkTransfer.Piece>): Option<seq<Byte>>
  {
    var o, l := BulkTransfer.Side(region, 0), Whole(to, n);
    if to + n <= |m| && BulkTransfer.Executable(m, o, l, n, i, order)
    then Some(BulkTransfer.Effect(m, o, l, false, n, i, order)[to..to + n])
    else None
  }

  /** What was left at `from` is what a pull puts at `to`, whatever is issued for it and in whatever order it takes effect. */
  lemma PullGets(m: seq<Byte>, from: nat, to: nat, n: nat, i: BulkTransfer.Issue, order: seq<BulkTransfer.Piece>)
    requires from + n <= |m| && to + n <= |m| && (from + n <= to || to + n <= from)
    requires BulkTransfer.Issued(Whole(from, n), Whole(to, n), n, i)
    requires i.Many? ==> multiset(order) == multiset(i.ops)
    ensures Pull(m, [Segment(from, n)], n, to, i, order) == Some(m[from..from + n])
  {
    PullTransferable(from, to, n, |m|);
    BulkTransfer.EffectIsFlatCopy(m, Whole(from, n), Whole(to, n), false, n, i, order);
    PullIsExact(m, BulkTransfer.Effect(m, Whole(from, n), Whole(to, n), false, n, i, order), from, to, n);
  }

  /** The receiving process: whether it is the sender itself, what NA handles denote, memory, and the buffer for the payload. */
  datatype Receiver = Receiver(isSelf: bool, na: map<seq<Byte>, seq<Segment>>, m: seq<Byte>, to: nat)

  /** hg_get_extra_payload (796-883), then hg_get_struct: what the handle denotes is pulled and read. */
  ghost function GetPulled<T>(
    c: Codec<T>, area: seq<Byte>, handle: Option<Bulk>, r: Receiver, i: BulkTransfer.Issue, order: seq<BulkTransfer.Piece>): Option<T>
  {
    if handle.None? then None
    else
      var region := Region(handle.value, r.isSelf, r.na);
      if region.None? then None
      else
        var pulled := Pull(r.m, region.value, handle.value.len, r.to, i, order);
        if pulled.None? then None else GetStruct(c, area, pulled)
  }

  /**
   The receiver: a message with the MORE_DATA flag leads to a pull of what its
   descriptor announces, by the operations that the bulk engine issues for it.
   */
  ghost function Receive<T>(
    c: Codec<T>, area: seq<Byte>, moreData: bool, alloc: nat -> nat, r: Receiver,
    i: BulkTransfer.Issue, order: seq<BulkTransfer.Piece>): Option<T>
  {
    if moreData then GetPulled(c, area, Announced(area, alloc), r, i, order) else GetStruct(c, area, None)
  }

  /** The extra buffer is in memory with what was left in it, and the receiver's buffer lies apart from it. */
  ghost predicate LeftBehind(m: seq<Byte>, from: nat, to: nat, left: seq<Byte>)
  {
    && from + |left| <= |m| && to + |left| <= |m| && (from + |left| <= to || to + |left| <= from)
    && m[from..from + |left|] == left
  }

  /** What the bulk engine may issue for the pull of `n` bytes; `order` is the order in which they take effect. */
  ghost predicate MayIssue(from: nat, to: nat, n: nat, i: BulkTransfer.Issue, order: seq<BulkTransfer.Piece>)
  {
    BulkTransfer.Issued(Whole(from, n), Whole(to, n), n, i) && (i.Many? ==> multiset(order) == multiset(i.ops))
  }

  /**
   The extra buffer, at address extraAddr of the sender, is at `home` in the
   memory of both processes: at that very address for oneself, and otherwise
   where NA finds it by the handle that the sender's registration serialized to.
   */
  ghost predicate Known(r: Receiver, s: Site, home: nat, n: nat)
  {
    if r.isSelf then home == s.extraAddr else s.mem in r.na && r.na[s.mem] == [Segment(home, n)]
  }

  /** Pulling what a message announces gives the bytes left behind to the callback. */
  lemma GetsLeft<T>(
    c: Codec<T>, area: seq<Byte>, b: Bulk, r: Receiver, s: Site, home: nat, left: seq<Byte>,
    i: BulkTransfer.Issue, order: seq<BulkTransfer.Piece>)
    requires b.len == |left| && b.segs == [Segment(s.extraAddr, |left|)] && b.mems == [Some(s.mem)]
    requires LeftBehind(r.m, home, r.to, left) && MayIssue(home, r.to, |left|, i, order) && Known(r, s, home, |left|)
    ensures GetPulled(c, area, Some(b), r, i, order) == GetStruct(c, area, Some(left))
  {
    PullGets(r.m, home, r.to, |left|, i, order);
  }

  /**
   End to end, for every payload size: whenever a message is sent, the receiver
   gets the same structure.  A payload left behind is pulled by the bulk engine
   from the region that the message's handle denotes, at its address for oneself
   and through its NA memory handle otherwise, with a single operation or with
   several that take effect in any order; the copy through self is the latter in
   the order of the plan.
   */
  lemma EndToEnd<T>(
    c: Codec<T>, x: T, s: Site, rest: seq<Byte>, alloc: nat -> nat, r: Receiver, home: nat,
    i: BulkTransfer.Issue, order: seq<BulkTransfer.Piece>)
    requires ReadsBack(c, x) && SiteOk(s) && DescriptorSize(s) + |Chosen(c, x, s)| < Pow256(8)
    requires SetStruct(c, x, s).Sent?
    requires SetStruct(c, x, s).left.Some? ==>
      var left := SetStruct(c, x, s).left.value;
      LeftBehind(r.m, home, r.to, left) && MayIssue(home, r.to, |left|, i, order) && Known(r, s, home, |left|)
    ensures SetStruct(c, x, s).left.Some? <==> |Chosen(c, x, s)| > s.room
    ensures Arrived(c, x, Receive(c, SetStruct(c, x, s).body + rest, SetStruct(c, x, s).left.Some?, alloc, r, i, order))
  {
    OverflowIff(c, x, s);
    if |Chosen(c, x, s)| <= s.room {
      InPlace(c, x, s, rest);
    } else {
      DescriptorAnnounces(c, x, s, rest, alloc);
      var area, left := SetStruct(c, x, s).body + rest, Chosen(c, x, s);
      GetsLeft(c, area, Announced(area, alloc).value, r, s, home, left, i, order);
      ReadBehind(c, x, s, area);
    }
  }

  // ------------------------------------------------------------- on a proc buffer

  /** One field: its encodings, one after the other. */
  method EncodeItems(proc: Proc.HgProc, items: seq<seq<Byte>>)
    requires proc.Valid() && proc.op == Proc.ENCODE
    modifies proc, proc.procBuf, proc.extraBuf
    ensures proc.Valid() && proc.op == Proc.ENCODE && proc.procBuf == old(proc.procBuf) && proc.bulkEager == old(proc.bulkEager)
    ensures proc.extraBuf == old(proc.extraBuf) || (proc.extraBuf != null && fresh(proc.extraBuf))
    ensures proc.Contents() == Proc.EncodedAll(old(proc.Contents()), items, proc.page)
  {
    ghost var start := proc.Contents();
    assert items[0..] == items;
    var i := 0;
    while i < |items|
      invariant i <= |items| && proc.Valid() && proc.op == Proc.ENCODE && proc.procBuf == old(proc.procBuf)
      invariant proc.bulkEager == old(proc.bulkEager)
      invariant proc.extraBuf == old(proc.extraBuf) || (proc.extraBuf != null && fresh(proc.extraBuf))
      invariant Proc.EncodedAll(proc.Contents(), items[i..], proc.page) == Proc.EncodedAll(start, items, proc.page)
    {
      assert items[i..][0] == items[i] && items[i..][1..] == items[i + 1..];
      proc.Encode(items[i]);
      i := i + 1;
    }
  }

  /** A serialization callback: its fields, one after the other, each of them told the room left. */
  method EncodeFields(proc: Proc.HgProc, fields: seq<Proc.Field>)
    requires proc.Valid() && proc.op == Proc.ENCODE
    modifies proc, proc.procBuf, proc.extraBuf
    ensures proc.Valid() && proc.op == Proc.ENCODE && proc.procBuf == old(proc.procBuf)
    ensures proc.extraBuf == old(proc.extraBuf) || (proc.extraBuf != null && fresh(proc.extraBuf))
    ensures proc.Contents() == Proc.EncodedFields(old(proc.Contents()), fields, proc.page)
  {
    ghost var start := proc.Contents();
    assert fields[0..] == fields;
    var i := 0;
    while i < |fields|
      invariant i <= |fields| && proc.Valid() && proc.op == Proc.ENCODE && proc.procBuf == old(proc.procBuf)
      invariant proc.extraBuf == old(proc.extraBuf) || (proc.extraBuf != null && fresh(proc.extraBuf))
      invariant Proc.EncodedFields(proc.Contents(), fields[i..], proc.page) == Proc.EncodedFields(start, fields, proc.page)
    {
      assert fields[i..][0] == fields[i] && fields[i..][1..] == fields[i + 1..];
      assert Proc.Left(proc.Contents()) == proc.SizeLeft();
      EncodeItems(proc, fields[i](proc.SizeLeft()));
      i := i + 1;
    }
  }

  /** A proc made ready to encode into the message buffer (616-631 and 676-694). */
  method Begin(proc: Proc.HgProc, buf: array<Byte>, eager: bool) returns (freed: array?<Byte>)
    requires proc.Valid()
    modifies proc
    ensures proc.Valid() && proc.op == Proc.ENCODE && proc.procBuf == buf && proc.extraBuf == null && proc.bulkEager == eager
    ensures proc.Contents() == Proc.Fresh(buf.Length) && proc.SizeLeft() == buf.Length
    ensures freed == if old(proc.extraIsMine) then old(proc.extraBuf) else null
  {
    freed := proc.Reset(buf, Proc.ENCODE);
    proc.SetFlags(eager);
  }

  /** The bytes in the message buffer. */
  method Body(proc: Proc.HgProc) returns (body: seq<Byte>)
    requires proc.Valid() && proc.extraBuf == null
    ensures body == proc.Contents().used && |body| <= proc.procBuf.Length && proc.procBuf[..|body|] == body
  {
    body := proc.procBuf[..proc.pos];
  }

  /** The descriptor written over the message buffer (675-706); the payload stays where the other side will pull it from. */
  method Describe(proc: Proc.HgProc, buf: array<Byte>, b: Bulk, s: Site)
    returns (fits: bool, body: seq<Byte>, freed: array?<Byte>)
    requires proc.Valid() && proc.page == s.page && buf.Length == s.room && Consistent(b) && Registered(b) && !proc.extraIsMine
    modifies proc, buf
    ensures fits == (Described(b, s).extra == 0)
    ensures fits ==> body == Described(b, s).used && |body| <= buf.Length && buf[..|body|] == body
    ensures freed == null
  {
    freed := Begin(proc, buf, s.wanted);
    EncodeHandle(proc, Some(b), []);
    fits, body := proc.extraBuf == null, [];
    if fits {
      body := Body(proc);
    }
  }

  /** The payload in an extra buffer that is taken over from the proc (664-668). */
  method TakeExtra(proc: Proc.HgProc) returns (left: seq<Byte>)
    requires proc.Valid() && proc.extraBuf != null
    modifies proc
    ensures proc.Valid() && left == old(proc.Contents().used) && !proc.extraIsMine
  {
    left := proc.extraBuf[..proc.pos];
    var taken := proc.SetExtraBufIsMine(true);
  }

  /** The payload written into the message buffer, or what is left of it in an extra buffer. */
  method Write<T>(proc: Proc.HgProc, buf: array<Byte>, c: Codec<T>, x: T, s: Site)
    returns (left: Option<seq<Byte>>, body: seq<Byte>)
    requires proc.Valid() && proc.page == s.page && buf.Length == s.room
    modifies proc, buf
    ensures proc.Valid() && (left.Some? ==> !proc.extraIsMine)
    ensures left == (if Written(c, x, s).extra == 0 then None else Some(Written(c, x, s).used))
    ensures left.None? ==> body == Written(c, x, s).used && |body| <= buf.Length && buf[..|body|] == body
  {
    var freed := Begin(proc, buf, s.wanted);
    EncodeFields(proc, c.fields(x));
    left, body := None, [];
    if proc.extraBuf == null {
      body := Body(proc);
    } else {
      var bytes := TakeExtra(proc);
      left := Some(bytes);
    }
  }

  /** hg_set_struct (538-727) on the message buffer behind the header. */
  method SetStructIn<T>(proc: Proc.HgProc, buf: array<Byte>, c: Codec<T>, x: T, s: Site) returns (r: Outcome)
    requires proc.Valid() && proc.page == s.page && buf.Length == s.room && SiteOk(s) && |Chosen(c, x, s)| < Pow256(8)
    modifies proc, buf
    ensures r == SetStruct(c, x, s)
    ensures r.Sent? ==> |r.body| <= buf.Length && buf[..|r.body|] == r.body
  {
    WrittenPayload(c, x, s);
    var left, body := Write(proc, buf, c, x, s);
    if left.None? {
      return Sent(body, None);
    }
    ExtraBulkSound(s, left.value);
    var fits, descriptor, freed := Describe(proc, buf, ExtraBulk(s, left.value), s);
    if !fits {
      return Overflowed;
    }
    return Sent(descriptor, left);
  }

  /** The length a consistent handle announces is the whole of its region, so a pull of it stays inside. */
  lemma AnnouncedIsInside(b: Bulk, memory: nat)
    requires Consistent(b) && BulkTransfer.Fits(b.segs, memory)
    ensures BulkTransfer.Total(b.segs) == b.len && BulkTransfer.Inside(BulkTransfer.Side(b.segs, 0), b.len, memory)
  {
    BulkTransfer.TotalIsLen(b.segs);
  }

  /** The pull of all of `b`'s region into a buffer at `to` is one the engine is made for. */
  ghost predicate CanPull(m: seq<Byte>, b: Bulk, home: seq<Segment>, to: nat, isSelf: bool)
  {
    BulkEngine.Ready(m, false, isSelf, b.flags.eager, BulkTransfer.Side(b.segs, 0), home, Whole(to, b.len), b.len)
  }

  /** The pull itself (858-873); `home` is the region as its owner registered it. */
  method PullExtra(mem: array<Byte>, b: Bulk, ghost home: seq<Segment>, to: nat, isSelf: bool, posts: nat)
    returns (issue: Option<BulkTransfer.Issue>, ok: bool)
    requires CanPull(mem[..], b, home, to, isSelf)
    modifies mem
    ensures issue.None? <==> b.len == 0 || isSelf || b.flags.eager
    ensures issue.None? ==> ok && mem[..] == old(
        BulkTransfer.FlatExec(mem[..], Whole(to, b.len), BulkTransfer.Side(home, 0), b.len))
    ensures issue.Some? ==> mem[..] == old(mem[..])
    ensures issue.Some? && ok ==> BulkTransfer.Issued(BulkTransfer.Side(home, 0), Whole(to, b.len), b.len, issue.value)
  {
    var o, l := BulkTransfer.Side(b.segs, 0), Whole(to, b.len);
    ghost var before := mem[..];
    issue, ok := BulkEngine.Transfer(mem, false, isSelf, b.flags.eager, o, home, l, b.flags.regv, false, b.len, posts);
    if issue.None? {
      BulkEngine.SameAsFlat(before, mem[..], BulkTransfer.Side(home, 0), l, false, b.len);
    }
  }

  /**
   hg_get_extra_payload (796-883) on the message area: what it pulls is the
   region that the message's handle denotes, at once or by the operations issued.
   */
  method GetExtraPayload(
    proc: Proc.HgProc, area: array<Byte>, mem: array<Byte>, alloc: nat -> nat, to: nat, isSelf: bool,
    ghost na: map<seq<Byte>, seq<Segment>>, posts: nat)
    returns (size: nat, issue: Option<BulkTransfer.Issue>, ok: bool)
    requires proc.Valid() && area != mem && Announced(area[..], alloc).Some?
    requires var b := Announced(area[..], alloc).value;
             Region(b, isSelf, na).Some? && CanPull(mem[..], b, Region(b, isSelf, na).value, to, isSelf)
    modifies proc, mem
    ensures var b := Announced(area[..], alloc).value;
            var o, l := BulkTransfer.Side(Region(b, isSelf, na).value, 0), Whole(to, b.len);
            && size == b.len
            && (issue.None? ==> ok && mem[..] == BulkTransfer.FlatExec(old(mem[..]), l, o, size))
            && (issue.Some? ==> mem[..] == old(mem[..]))
            && (issue.Some? && ok ==> BulkTransfer.Issued(o, l, size, issue.value))
  {
    var freed := proc.Reset(area, Proc.DECODE);
    var decoded, h, cached := DecodeHandle(proc, alloc);
    size := h.value.len;
    issue, ok := PullExtra(mem, h.value, Region(h.value, isSelf, na).value, to, isSelf, posts);
  }
}
