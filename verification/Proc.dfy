/**
 The growing serialization buffer of src/mercury_proc.c and src/mercury_proc.h,
 without XDR and checksums.  The caller's buffer is used until it is full; then
 an extra buffer of whole pages takes over and the bytes written so far move
 with it.
 */
module Proc {
  import opened Bytes

  datatype Op = ENCODE | DECODE | FREE

  // ------------------------------------------------------------ specification

  /** Size of the caller's buffer, size of the extra buffer (zero if none), bytes written so far. */
  datatype View = View(first: nat, extra: nat, used: seq<Byte>)

  function Capacity(v: View): nat
  {
    if v.extra == 0 then v.first else v.extra
  }

  /** Whole pages, one more than fit into the request (hg_proc_set_size, line 240). */
  function WholePages(req: nat, page: nat): nat
    requires page > 0
  {
    (req / page + 1) * page
  }

  /** HG_PROC_CHECK_SIZE and HG_PROC_BYTES for one encoding. */
  function Encoded(v: View, data: seq<Byte>, page: nat): View
    requires page > 0
  {
    if |v.used| + |data| > Capacity(v) then View(v.first, WholePages(v.first + v.extra + |data|, page), v.used + data)
    else v.(used := v.used + data)
  }

  function EncodedAll(v: View, items: seq<seq<Byte>>, page: nat): View
    requires page > 0
    decreases |items|
  {
    if items == [] then v else EncodedAll(Encoded(v, items[0], page), items[1..], page)
  }

  lemma WholePagesFit(req: nat, page: nat)
    requires page > 0
    ensures req < WholePages(req, page) <= req + page
  {
    assert req == page * (req / page) + req % page;
    assert (req / page + 1) * page == page * (req / page) + page;
  }

  /** What every sequence of encodings keeps. */
  ghost predicate Sound(v: View)
  {
    && |v.used| <= Capacity(v)
    && (v.extra != 0 <==> |v.used| > v.first)
  }

  lemma EncodedSound(v: View, data: seq<Byte>, page: nat)
    requires Sound(v) && page > 0
    ensures Sound(Encoded(v, data, page))
  {
    WholePagesFit(v.first + v.extra + |data|, page);
  }

  /**
   For every sequence of encodings, size of the caller's buffer and page size:
   the bytes used are the encodings one after the other, they fit the current
   buffer, and there is an extra buffer exactly when they exceed the caller's.
   */
  lemma {:induction false} EncodingsConcatenate(v: View, items: seq<seq<Byte>>, page: nat)
    requires Sound(v) && page > 0
    ensures Sound(EncodedAll(v, items, page))
    ensures EncodedAll(v, items, page).first == v.first
    ensures EncodedAll(v, items, page).used == v.used + Concat(items)
    decreases |items|
  {
    if items == [] {
      assert v.used + Concat(items) == v.used;
    } else {
      EncodedSound(v, items[0], page);
      EncodingsConcatenate(Encoded(v, items[0], page), items[1..], page);
      assert v.used + items[0] + Concat(items[1..]) == v.used + Concat(items);
    }
  }

  // ---------------------------------------------------- fields that look at the room

  /**
   One field of a structure: the encodings it makes, which may depend on the
   bytes left in the buffer (a bulk handle embeds its data only if that fits).
   */
  type Field = nat -> seq<seq<Byte>>

  /** hg_proc_get_size_left. */
  function Left(v: View): nat
  {
    if |v.used| <= Capacity(v) then Capacity(v) - |v.used| else 0
  }

  /** A serialization callback that encodes its fields one after the other. */
  function EncodedFields(v: View, fields: seq<Field>, page: nat): View
    requires page > 0
    decreases |fields|
  {
    if fields == [] then v else EncodedFields(EncodedAll(v, fields[0](Left(v)), page), fields[1..], page)
  }

  /** The room that each field sees. */
  function Rooms(v: View, fields: seq<Field>, page: nat): (r: seq<nat>)
    requires page > 0
    ensures |r| == |fields|
    decreases |fields|
  {
    if fields == [] then [] else [Left(v)] + Rooms(EncodedAll(v, fields[0](Left(v)), page), fields[1..], page)
  }

  /** The bytes of the fields when they see the given rooms. */
  function Laid(fields: seq<Field>, rooms: seq<nat>): seq<Byte>
    requires |fields| == |rooms|
  {
    if fields == [] then [] else Concat(fields[0](rooms[0])) + Laid(fields[1..], rooms[1..])
  }

  /** The same for fields that look at the room left: what is written is what they choose, one after the other. */
  lemma {:induction false} FieldsConcatenate(v: View, fields: seq<Field>, page: nat)
    requires Sound(v) && page > 0
    ensures Sound(EncodedFields(v, fields, page))
    ensures EncodedFields(v, fields, page).first == v.first
    ensures EncodedFields(v, fields, page).used == v.used + Laid(fields, Rooms(v, fields, page))
    decreases |fields|
  {
    if fields == [] {
      assert v.used + Laid(fields, Rooms(v, fields, page)) == v.used;
    } else {
      var items := fields[0](Left(v));
      var v1 := EncodedAll(v, items, page);
      EncodingsConcatenate(v, items, page);
      FieldsConcatenate(v1, fields[1..], page);
      var rooms := Rooms(v1, fields[1..], page);
      assert Rooms(v, fields, page)[1..] == rooms;
      assert (v.used + Concat(items)) + Laid(fields[1..], rooms) == v.used + (Concat(items) + Laid(fields[1..], rooms));
    }
  }

  lemma {:induction false} LaidTogether(f: seq<Field>, g: seq<Field>, rooms: seq<nat>)
    requires |rooms| == |f| + |g|
    ensures Laid(f + g, rooms) == Laid(f, rooms[..|f|]) + Laid(g, rooms[|f|..])
    decreases |f|
  {
    if f == [] {
      assert f + g == g && rooms[0..] == rooms && [] + Laid(g, rooms) == Laid(g, rooms);
    } else {
      LaidTogether(f[1..], g, rooms[1..]);
      assert (f + g)[1..] == f[1..] + g && rooms[1..][..|f| - 1] == rooms[..|f|][1..] && rooms[1..][|f| - 1..] == rooms[|f|..];
      var first, more, last := Concat(f[0](rooms[0])), Laid(f[1..], rooms[..|f|][1..]), Laid(g, rooms[|f|..]);
      assert first + (more + last) == (first + more) + last;
    }
  }

  /** A buffer of `size` bytes that nothing was written to. */
  function Fresh(size: nat): View
  {
    View(size, 0, [])
  }

  /** What decoding from the start of a buffer returns for fields of the given sizes. */
  function DecodedAll(buf: seq<Byte>, sizes: seq<nat>): seq<seq<Byte>>
    decreases |sizes|
  {
    if sizes == [] then []
    else if sizes[0] <= |buf| then [buf[..sizes[0]]] + DecodedAll(buf[sizes[0]..], sizes[1..])
    else []
  }

  function Sizes(items: seq<seq<Byte>>): seq<nat>
  {
    seq(|items|, i requires 0 <= i < |items| => |items[i]|)
  }

  /** Decoding what was encoded returns the same fields, whatever follows them in the buffer. */
  lemma {:induction false} DecodeUndoesEncode(items: seq<seq<Byte>>, rest: seq<Byte>)
    ensures DecodedAll(Concat(items) + rest, Sizes(items)) == items
    decreases |items|
  {
    if items != [] {
      var buf := Concat(items) + rest;
      assert buf == items[0] + (Concat(items[1..]) + rest);
      assert buf[..|items[0]|] == items[0] && buf[|items[0]|..] == Concat(items[1..]) + rest;
      assert Sizes(items)[1..] == Sizes(items[1..]);
      DecodeUndoesEncode(items[1..], rest);
    }
  }

  // ------------------------------------------------------------------- hg_proc

  /** memcpy of the first `n` bytes. */
  method CopyPrefix(from: array<Byte>, to: array<Byte>, n: nat)
    requires n <= from.Length && n <= to.Length && from != to
    modifies to
    ensures to[..n] == from[..n]
  {
    var i := 0;
    while i < n
      invariant i <= n && to[..i] == from[..i]
    {
      to[i] := from[i];
      i := i + 1;
    }
  }

  /** memcpy of `data` to position `at`. */
  method WriteAt(buf: array<Byte>, at: nat, data: seq<Byte>)
    requires at + |data| <= buf.Length
    modifies buf
    ensures buf[..] == old(buf[..at]) + data + old(buf[at + |data|..])
  {
    var i := 0;
    while i < |data|
      invariant i <= |data|
      invariant forall a :: 0 <= a < buf.Length ==> buf[a] == (if at <= a < at + i then data[a - at] else old(buf[a]))
    {
      buf[at + i] := data[i];
      i := i + 1;
    }
  }

  class HgProc {
    var procBuf: array<Byte>
    var extraBuf: array?<Byte>
    var pos: nat
    var op: Op
    var extraIsMine: bool
    /** HG_PROC_BULK_EAGER, the one flag there is without shared memory. */
    var bulkEager: bool
    const page: nat

    ghost predicate Valid()
      reads this
    {
      && page > 0
      && pos <= (if extraBuf == null then procBuf.Length else extraBuf.Length)
      && (extraBuf != null ==> extraBuf.Length > 0 && extraBuf != procBuf)
    }

    /** The bytes up to the current position of the current buffer. */
    ghost function Used(): seq<Byte>
      requires Valid()
      reads this, procBuf, extraBuf
    {
      if extraBuf == null then procBuf[..pos] else extraBuf[..pos]
    }

    ghost function Contents(): View
      requires Valid()
      reads this, procBuf, extraBuf
    {
      View(procBuf.Length, if extraBuf == null then 0 else extraBuf.Length, Used())
    }

    /** The bytes still to be decoded. */
    ghost function Ahead(): seq<Byte>
      requires Valid()
      reads this, procBuf, extraBuf
    {
      if extraBuf == null then procBuf[pos..] else extraBuf[pos..]
    }

    constructor (buf: array<Byte>, op: Op, page: nat)
      requires page > 0
      ensures Valid() && Contents() == Fresh(buf.Length) && Ahead() == buf[..] && procBuf == buf && extraBuf == null
      ensures this.op == op && this.page == page && !bulkEager
    {
      procBuf, extraBuf, pos, this.op, extraIsMine, bulkEager, this.page := buf, null, 0, op, false, false, page;
    }

    /** hg_proc_reset (155-218): `freed` is the buffer it frees, an extra buffer that nobody took over. */
    method Reset(buf: array<Byte>, newOp: Op) returns (freed: array?<Byte>)
      requires Valid()
      modifies this
      ensures Valid() && Contents() == Fresh(buf.Length) && Ahead() == buf[..] && procBuf == buf && extraBuf == null
      ensures op == newOp && !bulkEager
      ensures freed == if old(extraIsMine) then old(extraBuf) else null
    {
      op, bulkEager := newOp, false;
      procBuf, pos := buf, 0;
      freed := null;
      if extraBuf != null && extraIsMine {
        freed := extraBuf;
      }
      extraBuf := null;
    }

    /** hg_proc_set_flags. */
    method SetFlags(eager: bool)
      requires Valid()
      modifies this`bulkEager
      ensures Valid() && Contents() == old(Contents()) && Ahead() == old(Ahead()) && SizeLeft() == old(SizeLeft())
      ensures bulkEager == eager
    {
      bulkEager := eager;
    }

    /** hg_proc_get_size. */
    function GetSize(): nat
      reads this
    {
      procBuf.Length + if extraBuf == null then 0 else extraBuf.Length
    }

    /** hg_proc_get_size_left. */
    function SizeLeft(): nat
      requires Valid()
      reads this
    {
      if extraBuf == null then procBuf.Length - pos else extraBuf.Length - pos
    }

    /** hg_proc_set_size (222-273) when memory is available. */
    method SetSize(req: nat) returns (ok: bool)
      requires Valid()
      modifies this
      ensures Valid() && procBuf == old(procBuf) && op == old(op) && pos == old(pos) && bulkEager == old(bulkEager)
      ensures ok <==> WholePages(req, page) > old(GetSize())
      ensures ok ==> extraBuf != null && fresh(extraBuf) && extraBuf.Length == WholePages(req, page) && extraIsMine
      ensures !ok ==> extraBuf == old(extraBuf)
      ensures Used() == old(Used())
    {
      WholePagesFit(req, page);
      var newSize := (req / page + 1) * page;
      if newSize <= GetSize() {
        return false;
      }
      var newBuf := new Byte[newSize];
      if extraBuf == null {
        // a first extra buffer gets what was written
        CopyPrefix(procBuf, newBuf, pos);
      } else {
        // reallocation keeps all of the old one
        CopyPrefix(extraBuf, newBuf, extraBuf.Length);
        assert newBuf[..extraBuf.Length][..pos] == newBuf[..pos] && extraBuf[..extraBuf.Length][..pos] == extraBuf[..pos];
      }
      extraBuf, extraIsMine := newBuf, true;
      return true;
    }

    /** HG_PROC_CHECK_SIZE: growing never fails here. */
    method CheckSize(size: nat)
      requires Valid()
      modifies this
      ensures Valid() && procBuf == old(procBuf) && op == old(op) && pos == old(pos) && Used() == old(Used()) && bulkEager == old(bulkEager)
      ensures pos + size <= (if extraBuf == null then procBuf.Length else extraBuf.Length)
      ensures old(SizeLeft()) >= size ==> extraBuf == old(extraBuf)
      ensures old(SizeLeft()) < size ==>
        extraBuf != null && fresh(extraBuf) && extraBuf.Length == WholePages(old(GetSize()) + size, page)
    {
      if SizeLeft() < size {
        WholePagesFit(GetSize() + size, page);
        var ok := SetSize(GetSize() + size);
      }
    }

    /** HG_PROC_TYPE and HG_PROC_BYTES when encoding (139-196). */
    method Encode(data: seq<Byte>)
      requires Valid() && op == ENCODE
      modifies this, procBuf, extraBuf
      ensures Valid() && op == ENCODE && procBuf == old(procBuf) && bulkEager == old(bulkEager)
      ensures extraBuf == old(extraBuf) || (extraBuf != null && fresh(extraBuf))
      ensures Contents() == Encoded(old(Contents()), data, page)
    {
      CheckSize(|data|);
      var cur := if extraBuf == null then procBuf else extraBuf;
      ghost var before := cur[..pos];
      WriteAt(cur, pos, data);
      pos := pos + |data|;
      assert cur[..pos] == before + data;
    }

    /** HG_PROC_TYPE and HG_PROC_BYTES when decoding: exact as long as the buffer holds the field. */
    method Decode(size: nat) returns (data: seq<Byte>)
      requires Valid() && op == DECODE
      modifies this
      ensures Valid() && op == DECODE && |data| == size && pos == old(pos) + size && procBuf == old(procBuf) && bulkEager == old(bulkEager)
      ensures old(SizeLeft()) >= size ==>
        data == old(Ahead())[..size] && Ahead() == old(Ahead())[size..] && extraBuf == old(extraBuf)
    {
      CheckSize(size);
      var cur := if extraBuf == null then procBuf else extraBuf;
      data := cur[pos..pos + size];
      pos := pos + size;
    }

    /** hg_proc_save_ptr (277-308): the place for `size` bytes that the caller writes or reads itself. */
    method SavePtr(size: nat) returns (buf: array?<Byte>, at: nat)
      requires Valid()
      modifies this
      ensures Valid() && op == old(op) && procBuf == old(procBuf) && bulkEager == old(bulkEager)
      ensures op == FREE ==> buf == null && pos == old(pos) && extraBuf == old(extraBuf)
      ensures op != FREE ==>
        && buf == (if extraBuf == null then procBuf else extraBuf)
        && at == old(pos) && pos == at + size && pos <= buf.Length
        && buf[..at] == old(Used())
      ensures op != FREE && old(SizeLeft()) >= size ==> extraBuf == old(extraBuf) && buf[at..] == old(Ahead())
      ensures op != FREE && old(SizeLeft()) < size ==>
        extraBuf != null && fresh(extraBuf) && extraBuf.Length == WholePages(old(GetSize()) + size, page)
    {
      buf, at := null, 0;
      if op == FREE {
        return;
      }
      if size > 0 && SizeLeft() < size {
        WholePagesFit(GetSize() + size, page);
        var ok := SetSize(GetSize() + size);
      }
      buf := if extraBuf == null then procBuf else extraBuf;
      at := pos;
      pos := pos + size;
    }

    /** hg_proc_set_extra_buf_is_mine (335-349): the argument says that the caller takes the buffer over. */
    method SetExtraBufIsMine(theirs: bool) returns (ok: bool)
      requires Valid()
      modifies this`extraIsMine
      ensures Valid() && ok == (extraBuf != null)
      ensures extraIsMine == (if ok then !theirs else old(extraIsMine))
    {
      ok := extraBuf != null;
      if ok {
        extraIsMine := !theirs;
      }
    }
  }
}
