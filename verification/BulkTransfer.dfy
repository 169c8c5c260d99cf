/**
 The bulk transfer engine of src/mercury_bulk.c: offset translation and the
 three copies of one loop over two segmented regions, one that copies
 (hg_bulk_transfer_segments_self), one that counts
 (hg_bulk_transfer_get_op_count) and one that issues NA operations
 (hg_bulk_transfer_segments_na).

 A segmented region is read as one flat run of bytes; every path is compared
 with the flat copy of that run.
 */
module BulkTransfer {
  import opened Bytes

  // ---------------------------------------------------------------- flat view

  /** Number of bytes in the first `i` segments. */
  function Before(segs: seq<Segment>, i: nat): nat
    requires i <= |segs|
  {
    if i == 0 then 0 else Before(segs, i - 1) + segs[i - 1].len
  }

  function Total(segs: seq<Segment>): nat
  {
    Before(segs, |segs|)
  }

  lemma {:induction false} BeforeAndAfter(segs: seq<Segment>, i: nat)
    requires i <= |segs|
    ensures Before(segs, i) + TotalLen(segs[i..]) == TotalLen(segs)
  {
    if i == 0 {
      assert segs[0..] == segs;
    } else {
      BeforeAndAfter(segs, i - 1);
      assert segs[i - 1..][1..] == segs[i..];
    }
  }

  /** The flat size of a region is the length that its handle records. */
  lemma TotalIsLen(segs: seq<Segment>)
    ensures Total(segs) == TotalLen(segs)
  {
    BeforeAndAfter(segs, |segs|);
    assert segs[|segs|..] == [];
  }

  function AddrIn(segs: seq<Segment>, i: nat, k: nat): nat
    requires i <= |segs| && k < Before(segs, i)
  {
    if k >= Before(segs, i - 1) then segs[i - 1].base + (k - Before(segs, i - 1)) else AddrIn(segs, i - 1, k)
  }

  /** Memory index of flat byte `k`. */
  function Addr(segs: seq<Segment>, k: nat): nat
    requires k < Total(segs)
  {
    AddrIn(segs, |segs|, k)
  }

  lemma {:induction false} BeforeMonotone(segs: seq<Segment>, i: nat, j: nat)
    requires i <= j <= |segs|
    ensures Before(segs, i) <= Before(segs, j)
  {
    if i < j {
      BeforeMonotone(segs, i, j - 1);
    }
  }

  lemma {:induction false} AddrInAt(segs: seq<Segment>, n: nat, i: nat, off: nat)
    requires i < n <= |segs| && off < segs[i].len
    ensures Before(segs, i) + off < Before(segs, n)
    ensures AddrIn(segs, n, Before(segs, i) + off) == segs[i].base + off
  {
    BeforeMonotone(segs, i + 1, n);
    if i < n - 1 {
      BeforeMonotone(segs, i + 1, n - 1);
      AddrInAt(segs, n - 1, i, off);
    }
  }

  /** Byte `off` of segment `i` is flat byte Before(i) + off. */
  lemma AddrAt(segs: seq<Segment>, i: nat, off: nat)
    requires i < |segs| && off < segs[i].len
    ensures Before(segs, i) + off < Total(segs)
    ensures Addr(segs, Before(segs, i) + off) == segs[i].base + off
  {
    AddrInAt(segs, |segs|, i, off);
  }

  /** Every segment lies in a memory of `size` bytes. */
  ghost predicate Fits(segs: seq<Segment>, size: nat)
  {
    forall i :: 0 <= i < |segs| ==> segs[i].base + segs[i].len <= size
  }

  lemma {:induction false} AddrInFits(segs: seq<Segment>, i: nat, k: nat, size: nat)
    requires Fits(segs, size) && i <= |segs| && k < Before(segs, i)
    ensures AddrIn(segs, i, k) < size
  {
    if k < Before(segs, i - 1) {
      AddrInFits(segs, i - 1, k, size);
    } else {
      assert segs[i - 1].base + segs[i - 1].len <= size;
    }
  }

  /** One side of a transfer: a region and the flat offset where the transfer starts. */
  datatype Side = Side(segs: seq<Segment>, off: nat)

  function At(s: Side, k: nat): nat
    requires s.off + k < Total(s.segs)
  {
    Addr(s.segs, s.off + k)
  }

  /** `size` bytes from the offset on are inside the region, and the region inside memory. */
  ghost predicate Inside(s: Side, size: nat, memory: nat)
  {
    s.off + size <= Total(s.segs) && Fits(s.segs, memory)
  }

  lemma AtInMemory(s: Side, k: nat, size: nat, memory: nat)
    requires Inside(s, size, memory) && k < size
    ensures At(s, k) < memory
  {
    AddrInFits(s.segs, |s.segs|, s.off + k, memory);
  }

  /** No two bytes of the destination coincide, and none coincides with a byte of the source. */
  ghost predicate Separate(dst: Side, src: Side, size: nat)
    requires dst.off + size <= Total(dst.segs) && src.off + size <= Total(src.segs)
  {
    && (forall j, k :: 0 <= j < k < size ==> At(dst, j) != At(dst, k))
    && (forall j, k :: 0 <= j < size && 0 <= k < size ==> At(dst, j) != At(src, k))
  }

  // ------------------------------------------------------- what a transfer does

  function Range(from: nat, n: nat): (r: set<nat>)
    ensures forall k :: k in r <==> from <= k < from + n
  {
    if n == 0 then {} else Range(from, n - 1) + {from + n - 1}
  }

  lemma RangeJoin(n: nat, more: nat)
    ensures Range(0, n) + Range(n, more) == Range(0, n + more)
  {
  }

  /** The flat bytes numbered `ks` were copied and nothing else changed. */
  ghost predicate CopiedOn(m: seq<Byte>, m': seq<Byte>, dst: Side, src: Side, size: nat, ks: set<nat>)
    requires Inside(dst, size, |m|) && Inside(src, size, |m|)
  {
    && |m'| == |m|
    && (forall k :: k in ks ==> k < size && At(dst, k) < |m| && At(src, k) < |m| && m'[At(dst, k)] == m[At(src, k)])
    && (forall a :: 0 <= a < |m| && (forall k :: k in ks ==> k < size && At(dst, k) != a) ==> m'[a] == m[a])
  }

  /** The flat copy: bytes [off, off + size) of the destination are those of the source, and nothing else changed. */
  ghost predicate Copied(m: seq<Byte>, m': seq<Byte>, dst: Side, src: Side, size: nat)
    requires Inside(dst, size, |m|) && Inside(src, size, |m|)
  {
    && |m'| == |m|
    && (forall k :: 0 <= k < size ==> At(dst, k) < |m| && At(src, k) < |m| && m'[At(dst, k)] == m[At(src, k)])
    && (forall a :: 0 <= a < |m| && (forall k :: 0 <= k < size ==> At(dst, k) != a) ==> m'[a] == m[a])
  }

  lemma CopiedAll(m: seq<Byte>, m': seq<Byte>, dst: Side, src: Side, size: nat, ks: set<nat>)
    requires Inside(dst, size, |m|) && Inside(src, size, |m|)
    requires CopiedOn(m, m', dst, src, size, ks) && ks == Range(0, size)
    ensures Copied(m, m', dst, src, size)
  {
    assert forall k :: 0 <= k < size ==> k in ks;
  }

  /** At most one memory is the result of a transfer. */
  lemma CopiedUnique(m: seq<Byte>, m1: seq<Byte>, m2: seq<Byte>, dst: Side, src: Side, size: nat)
    requires Inside(dst, size, |m|) && Inside(src, size, |m|)
    requires Copied(m, m1, dst, src, size) && Copied(m, m2, dst, src, size)
    ensures m1 == m2
  {
    forall a | 0 <= a < |m|
      ensures m1[a] == m2[a]
    {
      if k :| 0 <= k < size && At(dst, k) == a {
        assert m1[At(dst, k)] == m2[At(dst, k)];
      }
    }
  }

  /** memcpy of `n` contiguous bytes. */
  function Memcpy(m: seq<Byte>, d: nat, s: nat, n: nat): seq<Byte>
    requires d + n <= |m| && s + n <= |m|
  {
    m[..d] + m[s..s + n] + m[d + n..]
  }

  lemma MemcpyAt(m: seq<Byte>, d: nat, s: nat, n: nat, a: nat)
    requires d + n <= |m| && s + n <= |m| && a < |m|
    ensures |Memcpy(m, d, s, n)| == |m|
    ensures Memcpy(m, d, s, n)[a] == (if d <= a < d + n then m[s + (a - d)] else m[a])
  {
  }

  /** Flat bytes [at, at + n) are contiguous on both sides. */
  ghost predicate Contiguous(dst: Side, src: Side, at: nat, d: nat, s: nat, n: nat)
    requires dst.off + at + n <= Total(dst.segs) && src.off + at + n <= Total(src.segs)
  {
    forall k :: at <= k < at + n ==> At(dst, k) == d + (k - at) && At(src, k) == s + (k - at)
  }

  lemma PieceAddr(dst: Side, src: Side, at: nat, d: nat, s: nat, n: nat, a: nat)
    requires dst.off + at + n <= Total(dst.segs) && src.off + at + n <= Total(src.segs) && Contiguous(dst, src, at, d, s, n)
    ensures d <= a < d + n ==> exists k :: at <= k < at + n && At(dst, k) == a
  {
    if d <= a < d + n {
      assert At(dst, at + (a - d)) == a;
    }
  }

  /** A flat byte after one more contiguous piece. */
  lemma ByteAfterPiece(
    m: seq<Byte>, m1: seq<Byte>, dst: Side, src: Side, size: nat, ks: set<nat>, at: nat, d: nat, s: nat, n: nat, k: nat)
    requires Inside(dst, size, |m|) && Inside(src, size, |m|) && Separate(dst, src, size) && at + n <= size
    requires CopiedOn(m, m1, dst, src, size, ks) && (k in ks || at <= k < at + n)
    requires d + n <= |m| && s + n <= |m| && Contiguous(dst, src, at, d, s, n)
    ensures k < size && At(dst, k) < |m| && At(src, k) < |m| && |Memcpy(m1, d, s, n)| == |m|
    ensures Memcpy(m1, d, s, n)[At(dst, k)] == m[At(src, k)]
  {
    AtInMemory(dst, k, size, |m|);
    AtInMemory(src, k, size, |m|);
    MemcpyAt(m1, d, s, n, At(dst, k));
    if at <= k < at + n {
      assert m1[At(src, k)] == m[At(src, k)];
    } else {
      PieceAddr(dst, src, at, d, s, n, At(dst, k));
    }
  }

  /** Copying one more contiguous piece, whichever it is, extends a transfer. */
  lemma CopyExtends(
    m: seq<Byte>, m1: seq<Byte>, dst: Side, src: Side, size: nat, ks: set<nat>, at: nat, d: nat, s: nat, n: nat)
    requires Inside(dst, size, |m|) && Inside(src, size, |m|) && Separate(dst, src, size) && at + n <= size
    requires CopiedOn(m, m1, dst, src, size, ks)
    requires d + n <= |m| && s + n <= |m| && Contiguous(dst, src, at, d, s, n)
    ensures CopiedOn(m, Memcpy(m1, d, s, n), dst, src, size, ks + Range(at, n))
  {
    var m2 := Memcpy(m1, d, s, n);
    forall k | k in ks + Range(at, n)
      ensures k < size && At(dst, k) < |m| && At(src, k) < |m| && m2[At(dst, k)] == m[At(src, k)]
    {
      ByteAfterPiece(m, m1, dst, src, size, ks, at, d, s, n, k);
    }
    forall a | 0 <= a < |m| && (forall k :: k in ks + Range(at, n) ==> k < size && At(dst, k) != a)
      ensures m2[a] == m[a]
    {
      MemcpyAt(m1, d, s, n, a);
      PieceAddr(dst, src, at, d, s, n, a);
      assert forall k :: k in ks ==> k in ks + Range(at, n);
      assert forall k :: at <= k < at + n ==> k in ks + Range(at, n);
    }
  }

  // ------------------------------------------------------------------ cursors

  /** A position inside a region: segment index and offset. */
  datatype Cursor = Cursor(index: nat, off: nat)

  ghost predicate CursorOk(segs: seq<Segment>, c: Cursor)
  {
    c.index <= |segs| && (if c.index < |segs| then c.off <= segs[c.index].len else c.off == 0)
  }

  function Pos(segs: seq<Segment>, c: Cursor): nat
    requires c.index <= |segs|
  {
    Before(segs, c.index) + c.off
  }

  /** Bytes left in the current segment. */
  function Room(segs: seq<Segment>, c: Cursor): nat
    requires CursorOk(segs, c) && c.index < |segs|
  {
    segs[c.index].len - c.off
  }

  function Moved(segs: seq<Segment>, c: Cursor, n: nat): Cursor
    requires c.index < |segs|
  {
    if c.off + n >= segs[c.index].len then Cursor(c.index + 1, 0) else Cursor(c.index, c.off + n)
  }

  lemma MovedOk(segs: seq<Segment>, c: Cursor, n: nat)
    requires CursorOk(segs, c) && c.index < |segs| && n <= Room(segs, c)
    ensures CursorOk(segs, Moved(segs, c, n)) && Pos(segs, Moved(segs, c, n)) == Pos(segs, c) + n
  {
  }

  /** The end is not reached while bytes remain. */
  lemma NotAtEnd(segs: seq<Segment>, c: Cursor, n: nat)
    requires CursorOk(segs, c) && Pos(segs, c) + n <= Total(segs) && n > 0
    ensures c.index < |segs|
  {
  }

  function Min(a: nat, b: nat): nat
  {
    if a < b then a else b
  }

  /** One operation: where it starts on either side, its size, and how many bytes precede it. */
  datatype Piece = Piece(origin: Cursor, local: Cursor, at: nat, size: nat)

  /** The loop's variables: both cursors, bytes done and bytes remaining. */
  datatype Walk = Walk(origin: Cursor, local: Cursor, at: nat, rem: nat)

  ghost predicate WalkOk(o: seq<Segment>, l: seq<Segment>, w: Walk)
  {
    CursorOk(o, w.origin) && CursorOk(l, w.local)
  }

  predicate Over(o: seq<Segment>, l: seq<Segment>, w: Walk)
  {
    w.rem == 0 || w.origin.index >= |o| || w.local.index >= |l|
  }

  function Step(o: seq<Segment>, l: seq<Segment>, w: Walk): (n: nat)
    requires WalkOk(o, l, w) && !Over(o, l, w)
    ensures n <= w.rem && n <= Room(o, w.origin) && n <= Room(l, w.local)
  {
    Min(w.rem, Min(Room(o, w.origin), Room(l, w.local)))
  }

  function PieceAt(o: seq<Segment>, l: seq<Segment>, w: Walk): Piece
    requires WalkOk(o, l, w) && !Over(o, l, w)
  {
    Piece(w.origin, w.local, w.at, Step(o, l, w))
  }

  /** One turn of the loop, which is left before the cursors move when nothing remains. */
  function Next(o: seq<Segment>, l: seq<Segment>, w: Walk): (w': Walk)
    requires WalkOk(o, l, w) && !Over(o, l, w)
    ensures WalkOk(o, l, w') && w'.at + w'.rem == w.at + w.rem
    ensures w'.rem > 0 ==> w'.origin.index + w'.local.index > w.origin.index + w.local.index
  {
    var n := Step(o, l, w);
    if n == w.rem then w.(at := w.at + n, rem := 0)
    else Walk(Moved(o, w.origin, n), Moved(l, w.local, n), w.at + n, w.rem - n)
  }

  /** The operations the loop goes through. */
  function Plan(o: seq<Segment>, l: seq<Segment>, w: Walk): seq<Piece>
    requires WalkOk(o, l, w)
    decreases |o| - w.origin.index + |l| - w.local.index, w.rem
  {
    if Over(o, l, w) then [] else [PieceAt(o, l, w)] + Plan(o, l, Next(o, l, w))
  }

  lemma PlanTurn(o: seq<Segment>, l: seq<Segment>, w: Walk)
    requires WalkOk(o, l, w) && !Over(o, l, w)
    ensures Plan(o, l, w) == [PieceAt(o, l, w)] + Plan(o, l, Next(o, l, w))
  {
  }

  lemma PlanAppends(o: seq<Segment>, l: seq<Segment>, w: Walk, done: seq<Piece>)
    requires WalkOk(o, l, w) && !Over(o, l, w)
    ensures done + Plan(o, l, w) == (done + [PieceAt(o, l, w)]) + Plan(o, l, Next(o, l, w))
  {
    PlanTurn(o, l, w);
  }

  /** Each operation starts where the previous one ended, and together they cover the transfer. */
  ghost predicate Tiles(ps: seq<Piece>, at: nat, size: nat)
    decreases |ps|
  {
    if ps == [] then size == 0 else ps[0].at == at && ps[0].size <= size && Tiles(ps[1..], at + ps[0].size, size - ps[0].size)
  }

  /** The walk is where its flat positions say, and they never run past the end of a region. */
  ghost predicate Enough(o: seq<Segment>, l: seq<Segment>, w: Walk)
    requires WalkOk(o, l, w)
  {
    w.rem > 0 ==> Pos(o, w.origin) + w.rem <= Total(o) && Pos(l, w.local) + w.rem <= Total(l)
  }

  lemma NextEnough(o: seq<Segment>, l: seq<Segment>, w: Walk)
    requires WalkOk(o, l, w) && Enough(o, l, w) && !Over(o, l, w)
    ensures Enough(o, l, Next(o, l, w))
  {
    MovedOk(o, w.origin, Step(o, l, w));
    MovedOk(l, w.local, Step(o, l, w));
  }

  lemma {:induction false} PlanTiles(o: seq<Segment>, l: seq<Segment>, w: Walk)
    requires WalkOk(o, l, w) && Enough(o, l, w)
    ensures Tiles(Plan(o, l, w), w.at, w.rem)
    decreases |o| - w.origin.index + |l| - w.local.index, w.rem
  {
    if w.rem > 0 {
      NotAtEnd(o, w.origin, w.rem);
      NotAtEnd(l, w.local, w.rem);
      NextEnough(o, l, w);
      PlanTiles(o, l, Next(o, l, w));
      PlanTurn(o, l, w);
    }
  }

  /** The number of operations, counting those of size zero. */
  lemma {:induction false} PlanBound(o: seq<Segment>, l: seq<Segment>, w: Walk)
    requires WalkOk(o, l, w)
    ensures Plan(o, l, w) != [] ==> |Plan(o, l, w)| <= |o| + |l| - w.origin.index - w.local.index - 1
    decreases |o| - w.origin.index + |l| - w.local.index, w.rem
  {
    if !Over(o, l, w) {
      PlanBound(o, l, Next(o, l, w));
      PlanTurn(o, l, w);
    }
  }

  // --------------------------------------------------- operations in any order

  /** The operation stays inside one segment on either side and starts at flat byte `at` of the transfer. */
  ghost predicate PieceOk(o: Side, l: Side, p: Piece)
  {
    && CursorOk(o.segs, p.origin) && p.origin.index < |o.segs| && p.size <= Room(o.segs, p.origin)
    && CursorOk(l.segs, p.local) && p.local.index < |l.segs| && p.size <= Room(l.segs, p.local)
    && Pos(o.segs, p.origin) == o.off + p.at
    && Pos(l.segs, p.local) == l.off + p.at
  }

  /** The walk stands at the transfer's offsets plus the bytes done. */
  ghost predicate OnCourse(o: Side, l: Side, w: Walk)
  {
    WalkOk(o.segs, l.segs, w) && (w.rem > 0 ==> Pos(o.segs, w.origin) == o.off + w.at && Pos(l.segs, w.local) == l.off + w.at)
  }

  lemma NextOnCourse(o: Side, l: Side, w: Walk)
    requires OnCourse(o, l, w) && !Over(o.segs, l.segs, w)
    ensures OnCourse(o, l, Next(o.segs, l.segs, w)) && PieceOk(o, l, PieceAt(o.segs, l.segs, w))
  {
    MovedOk(o.segs, w.origin, Step(o.segs, l.segs, w));
    MovedOk(l.segs, w.local, Step(o.segs, l.segs, w));
  }

  lemma {:induction false} PlanPiecesOk(o: Side, l: Side, w: Walk, p: Piece)
    requires OnCourse(o, l, w) && p in Plan(o.segs, l.segs, w)
    ensures PieceOk(o, l, p) && p.at + p.size <= w.at + w.rem
    decreases |o.segs| - w.origin.index + |l.segs| - w.local.index, w.rem
  {
    NextOnCourse(o, l, w);
    PlanTurn(o.segs, l.segs, w);
    if p != PieceAt(o.segs, l.segs, w) {
      PlanPiecesOk(o, l, Next(o.segs, l.segs, w), p);
    }
  }

  /** Address of a cursor. */
  function Here(segs: seq<Segment>, c: Cursor): nat
    requires c.index < |segs|
  {
    segs[c.index].base + c.off
  }

  lemma CursorContiguous(s: Side, c: Cursor, at: nat, n: nat, k: nat)
    requires CursorOk(s.segs, c) && c.index < |s.segs| && n <= Room(s.segs, c) && Pos(s.segs, c) == s.off + at && at <= k < at + n
    ensures s.off + k < Total(s.segs) && At(s, k) == Here(s.segs, c) + (k - at)
  {
    AddrAt(s.segs, c.index, c.off + (k - at));
  }

  /** What NA does for one operation: a put writes the origin, a get writes the local side. */
  function Exec(m: seq<Byte>, o: Side, l: Side, push: bool, p: Piece): seq<Byte>
    requires PieceOk(o, l, p) && Fits(o.segs, |m|) && Fits(l.segs, |m|)
  {
    if push then Memcpy(m, Here(o.segs, p.origin), Here(l.segs, p.local), p.size)
    else Memcpy(m, Here(l.segs, p.local), Here(o.segs, p.origin), p.size)
  }

  function Dst(o: Side, l: Side, push: bool): Side
  {
    if push then o else l
  }

  function Src(o: Side, l: Side, push: bool): Side
  {
    if push then l else o
  }

  /** A transfer between two regions inside a memory of `memory` bytes whose sides do not overlap. */
  ghost predicate Transferable(o: Side, l: Side, push: bool, size: nat, memory: nat)
  {
    Inside(o, size, memory) && Inside(l, size, memory) && Separate(Dst(o, l, push), Src(o, l, push), size)
  }

  lemma ExecExtends(m: seq<Byte>, m1: seq<Byte>, o: Side, l: Side, push: bool, size: nat, ks: set<nat>, p: Piece)
    requires Transferable(o, l, push, size, |m|) && PieceOk(o, l, p) && p.at + p.size <= size
    requires CopiedOn(m, m1, Dst(o, l, push), Src(o, l, push), size, ks)
    ensures CopiedOn(m, Exec(m1, o, l, push, p), Dst(o, l, push), Src(o, l, push), size, ks + Range(p.at, p.size))
  {
    forall k | p.at <= k < p.at + p.size
      ensures At(o, k) == Here(o.segs, p.origin) + (k - p.at) && At(l, k) == Here(l.segs, p.local) + (k - p.at)
    {
      CursorContiguous(o, p.origin, p.at, p.size, k);
      CursorContiguous(l, p.local, p.at, p.size, k);
    }
    var d := if push then Here(o.segs, p.origin) else Here(l.segs, p.local);
    var s := if push then Here(l.segs, p.local) else Here(o.segs, p.origin);
    CopyExtends(m, m1, Dst(o, l, push), Src(o, l, push), size, ks, p.at, d, s, p.size);
  }

  ghost predicate PiecesOk(o: Side, l: Side, size: nat, ps: seq<Piece>)
  {
    forall p :: p in ps ==> PieceOk(o, l, p) && p.at + p.size <= size
  }

  function ExecAll(m: seq<Byte>, o: Side, l: Side, push: bool, size: nat, ps: seq<Piece>): (r: seq<Byte>)
    requires PiecesOk(o, l, size, ps) && Fits(o.segs, |m|) && Fits(l.segs, |m|)
    ensures |r| == |m|
    decreases |ps|
  {
    if ps == [] then m else ExecAll(Exec(m, o, l, push, ps[0]), o, l, push, size, ps[1..])
  }

  function Cover(ps: seq<Piece>): (r: set<nat>)
    ensures forall k :: k in r <==> exists p :: p in ps && p.at <= k < p.at + p.size
  {
    if ps == [] then {} else Range(ps[0].at, ps[0].size) + Cover(ps[1..])
  }

  lemma {:induction false} ExecAllExtends(
    m: seq<Byte>, m1: seq<Byte>, o: Side, l: Side, push: bool, size: nat, ks: set<nat>, ps: seq<Piece>)
    requires Transferable(o, l, push, size, |m|) && PiecesOk(o, l, size, ps)
    requires CopiedOn(m, m1, Dst(o, l, push), Src(o, l, push), size, ks)
    ensures CopiedOn(m, ExecAll(m1, o, l, push, size, ps), Dst(o, l, push), Src(o, l, push), size, ks + Cover(ps))
    decreases |ps|
  {
    if ps == [] {
      assert ks + Cover(ps) == ks;
    } else {
      ExecExtends(m, m1, o, l, push, size, ks, ps[0]);
      ExecAllExtends(m, Exec(m1, o, l, push, ps[0]), o, l, push, size, ks + Range(ps[0].at, ps[0].size), ps[1..]);
      assert ks + Range(ps[0].at, ps[0].size) + Cover(ps[1..]) == ks + Cover(ps);
    }
  }

  lemma {:induction false} TilesCover(ps: seq<Piece>, at: nat, size: nat)
    requires Tiles(ps, at, size)
    ensures Cover(ps) == Range(at, size)
  {
    if ps != [] {
      TilesCover(ps[1..], at + ps[0].size, size - ps[0].size);
      assert Cover(ps) == Range(ps[0].at, ps[0].size) + Cover(ps[1..]);
    }
  }

  lemma SamePieces(ps: seq<Piece>, qs: seq<Piece>)
    requires multiset(ps) == multiset(qs)
    ensures Cover(ps) == Cover(qs) && forall p :: p in ps <==> p in qs
  {
    forall p
      ensures p in ps <==> p in qs
    {
      assert p in multiset(ps) <==> p in multiset(qs);
    }
  }

  lemma PlanOk(o: Side, l: Side, w: Walk, order: seq<Piece>)
    requires OnCourse(o, l, w) && multiset(order) == multiset(Plan(o.segs, l.segs, w))
    ensures PiecesOk(o, l, w.at + w.rem, order)
  {
    SamePieces(order, Plan(o.segs, l.segs, w));
    forall p | p in order
      ensures PieceOk(o, l, p) && p.at + p.size <= w.at + w.rem
    {
      PlanPiecesOk(o, l, w, p);
    }
  }

  lemma PlanCovers(o: Side, l: Side, w: Walk, order: seq<Piece>)
    requires OnCourse(o, l, w) && Enough(o.segs, l.segs, w) && multiset(order) == multiset(Plan(o.segs, l.segs, w))
    ensures Cover(order) == Range(w.at, w.rem)
  {
    SamePieces(order, Plan(o.segs, l.segs, w));
    PlanTiles(o.segs, l.segs, w);
    TilesCover(Plan(o.segs, l.segs, w), w.at, w.rem);
  }

  lemma CoveringIsFlatCopy(m: seq<Byte>, o: Side, l: Side, push: bool, size: nat, ps: seq<Piece>)
    requires Transferable(o, l, push, size, |m|) && PiecesOk(o, l, size, ps) && Cover(ps) == Range(0, size)
    ensures Copied(m, ExecAll(m, o, l, push, size, ps), Dst(o, l, push), Src(o, l, push), size)
  {
    ExecAllExtends(m, m, o, l, push, size, {}, ps);
    assert {} + Cover(ps) == Range(0, size);
    CopiedAll(m, ExecAll(m, o, l, push, size, ps), Dst(o, l, push), Src(o, l, push), size, Range(0, size));
  }

  /** Both cursors stand at the transfer's offsets. */
  ghost predicate Started(o: Side, l: Side, w: Walk, size: nat)
  {
    && WalkOk(o.segs, l.segs, w) && w.at == 0 && w.rem == size
    && Pos(o.segs, w.origin) == o.off && Pos(l.segs, w.local) == l.off
  }

  /** Whatever the order in which the issued operations take effect, the result is the flat copy. */
  lemma AnyOrderIsFlatCopy(m: seq<Byte>, o: Side, l: Side, push: bool, size: nat, w: Walk, order: seq<Piece>)
    requires Transferable(o, l, push, size, |m|) && Started(o, l, w, size)
    requires multiset(order) == multiset(Plan(o.segs, l.segs, w))
    ensures PiecesOk(o, l, size, order)
    ensures Copied(m, ExecAll(m, o, l, push, size, order), Dst(o, l, push), Src(o, l, push), size)
  {
    PlanOk(o, l, w, order);
    PlanCovers(o, l, w, order);
    CoveringIsFlatCopy(m, o, l, push, size, order);
  }

  // -------------------------------------------------- one operation on flat offsets

  /** Which of the flat bytes [0, n) lies at address `a`, or `n` if none does. */
  function Find(s: Side, n: nat, a: nat): (k: nat)
    requires s.off + n <= Total(s.segs)
    ensures k <= n
    ensures k < n ==> At(s, k) == a
    ensures k == n ==> forall j :: 0 <= j < n ==> At(s, j) != a
  {
    if n == 0 then 0
    else if At(s, n - 1) == a then n - 1
    else
      var k := Find(s, n - 1, a);
      if k == n - 1 then n else k
  }

  /** The byte at address `a` after a copy of `size` flat bytes. */
  function FlatByte(m: seq<Byte>, dst: Side, src: Side, size: nat, a: nat): Byte
    requires Inside(dst, size, |m|) && Inside(src, size, |m|) && a < |m|
  {
    var k := Find(dst, size, a);
    if k < size then AtInMemory(src, k, size, |m|); m[At(src, k)] else m[a]
  }

  /**
   What NA does for one operation between two regions that are registered as a
   whole: it counts offsets through the segments of either region and copies
   `size` bytes from one to the other.
   */
  function FlatExec(m: seq<Byte>, dst: Side, src: Side, size: nat): (r: seq<Byte>)
    requires Inside(dst, size, |m|) && Inside(src, size, |m|)
    ensures |r| == |m|
  {
    seq(|m|, a requires 0 <= a < |m| => FlatByte(m, dst, src, size, a))
  }

  lemma FlatExecAt(m: seq<Byte>, dst: Side, src: Side, size: nat, k: nat)
    requires Inside(dst, size, |m|) && Inside(src, size, |m|) && Separate(dst, src, size) && k < size
    ensures At(dst, k) < |m| && At(src, k) < |m| && FlatExec(m, dst, src, size)[At(dst, k)] == m[At(src, k)]
  {
    AtInMemory(dst, k, size, |m|);
    AtInMemory(src, k, size, |m|);
    var j := Find(dst, size, At(dst, k));
    assert j == k;
  }

  lemma FlatExecCopies(m: seq<Byte>, dst: Side, src: Side, size: nat)
    requires Inside(dst, size, |m|) && Inside(src, size, |m|) && Separate(dst, src, size)
    ensures Copied(m, FlatExec(m, dst, src, size), dst, src, size)
  {
    forall k | 0 <= k < size
      ensures At(dst, k) < |m| && At(src, k) < |m| && FlatExec(m, dst, src, size)[At(dst, k)] == m[At(src, k)]
    {
      FlatExecAt(m, dst, src, size, k);
    }
  }

  /** What hg_bulk_transfer_na issues: one operation on flat offsets, or one per piece. */
  datatype Issue = Single(originOffset: nat, localOffset: nat, size: nat) | Many(ops: seq<Piece>)

  /** The operations of `i` are within their regions and within memory, and take effect in some order. */
  ghost predicate Executable(m: seq<Byte>, o: Side, l: Side, size: nat, i: Issue, order: seq<Piece>)
  {
    match i
    case Single(oOff, lOff, n) => Inside(Side(o.segs, oOff), n, |m|) && Inside(Side(l.segs, lOff), n, |m|)
    case Many(ops) =>
      PiecesOk(o, l, size, order) && Fits(o.segs, |m|) && Fits(l.segs, |m|) && multiset(order) == multiset(ops)
  }

  /** Memory after the issued operations took effect. */
  ghost function Effect(m: seq<Byte>, o: Side, l: Side, push: bool, size: nat, i: Issue, order: seq<Piece>): (r: seq<Byte>)
    requires Executable(m, o, l, size, i, order)
    ensures |r| == |m|
  {
    match i
    case Single(oOff, lOff, n) =>
      FlatExec(m, Dst(Side(o.segs, oOff), Side(l.segs, lOff), push), Src(Side(o.segs, oOff), Side(l.segs, lOff), push), n)
    case Many(ops) => ExecAll(m, o, l, push, size, order)
  }

  /** What may be issued for a transfer: the offsets themselves, or the plan from the places they stand for. */
  ghost predicate Issued(o: Side, l: Side, size: nat, i: Issue)
  {
    match i
    case Single(oOff, lOff, n) => oOff == o.off && lOff == l.off && n == size
    case Many(ops) => exists w :: Started(o, l, w, size) && ops == Plan(o.segs, l.segs, w)
  }

  /** Whatever is issued, and in whatever order it takes effect, the result is the flat copy. */
  lemma EffectIsFlatCopy(m: seq<Byte>, o: Side, l: Side, push: bool, size: nat, i: Issue, order: seq<Piece>)
    requires Transferable(o, l, push, size, |m|) && Issued(o, l, size, i)
    requires i.Many? ==> multiset(order) == multiset(i.ops)
    ensures Executable(m, o, l, size, i, order)
    ensures Copied(m, Effect(m, o, l, push, size, i, order), Dst(o, l, push), Src(o, l, push), size)
  {
    match i {
      case Single(_, _, _) =>
        FlatExecCopies(m, Dst(o, l, push), Src(o, l, push), size);
      case Many(ops) =>
        var w :| Started(o, l, w, size) && ops == Plan(o.segs, l.segs, w);
        AnyOrderIsFlatCopy(m, o, l, push, size, w, order);
    }
  }

  /**
   The single NA operation on the transfer's offsets, several operations in any
   order, and the copy through self, which carries out the same pieces one
   after the other, leave the same memory behind.
   */
  lemma AllPathsAgree(m: seq<Byte>, o: Side, l: Side, push: bool, size: nat, w: Walk, order: seq<Piece>)
    requires Transferable(o, l, push, size, |m|) && Started(o, l, w, size)
    requires multiset(order) == multiset(Plan(o.segs, l.segs, w))
    ensures PiecesOk(o, l, size, order) && PiecesOk(o, l, size, Plan(o.segs, l.segs, w))
    ensures Executable(m, o, l, size, Single(o.off, l.off, size), [])
    ensures ExecAll(m, o, l, push, size, Plan(o.segs, l.segs, w))
            == ExecAll(m, o, l, push, size, order)
            == Effect(m, o, l, push, size, Single(o.off, l.off, size), [])
  {
    var plan := Plan(o.segs, l.segs, w);
    AnyOrderIsFlatCopy(m, o, l, push, size, w, order);
    AnyOrderIsFlatCopy(m, o, l, push, size, w, plan);
    EffectIsFlatCopy(m, o, l, push, size, Single(o.off, l.off, size), []);
    CopiedUnique(m, ExecAll(m, o, l, push, size, order), ExecAll(m, o, l, push, size, plan),
                 Dst(o, l, push), Src(o, l, push), size);
    CopiedUnique(m, ExecAll(m, o, l, push, size, order), Effect(m, o, l, push, size, Single(o.off, l.off, size), []),
                 Dst(o, l, push), Src(o, l, push), size);
  }

  lemma SingleSegmentPlan(a: Segment, b: Segment, oOff: nat, lOff: nat, size: nat)
    requires oOff + size <= a.len && lOff + size <= b.len && size > 0
    ensures var o, l, w := [a], [b], Walk(Cursor(0, oOff), Cursor(0, lOff), 0, size);
            WalkOk(o, l, w) && Plan(o, l, w) == [Piece(Cursor(0, oOff), Cursor(0, lOff), 0, size)]
  {
    var o, l, w := [a], [b], Walk(Cursor(0, oOff), Cursor(0, lOff), 0, size);
    assert CursorOk(o, w.origin) && CursorOk(l, w.local);
    PlanTurn(o, l, w);
  }

  /** A plan of one piece: the single operation is that piece. */
  lemma OnePiece(m: seq<Byte>, o: Side, l: Side, push: bool, size: nat, w: Walk, p: Piece)
    requires Transferable(o, l, push, size, |m|) && Started(o, l, w, size) && Plan(o.segs, l.segs, w) == [p]
    ensures Executable(m, o, l, size, Single(o.off, l.off, size), []) && PieceOk(o, l, p)
    ensures Effect(m, o, l, push, size, Single(o.off, l.off, size), []) == Exec(m, o, l, push, p)
  {
    AllPathsAgree(m, o, l, push, size, w, [p]);
    assert p in [p] && [p][1..] == [];
  }

  lemma SingleSegmentStarts(a: Segment, b: Segment, o: Side, l: Side, size: nat)
    requires o.segs == [a] && l.segs == [b] && size > 0
    requires o.off + size <= Total(o.segs) && l.off + size <= Total(l.segs)
    ensures var w := Walk(Cursor(0, o.off), Cursor(0, l.off), 0, size);
            && Started(o, l, w, size)
            && Plan(o.segs, l.segs, w) == [Piece(Cursor(0, o.off), Cursor(0, l.off), 0, size)]
  {
    assert Before(o.segs, 0) == 0 && Before(l.segs, 0) == 0 && Before(o.segs, 1) == a.len && Before(l.segs, 1) == b.len;
    SingleSegmentPlan(a, b, o.off, l.off, size);
  }

  /** One segment on either side: the single operation is one memcpy between the bases plus the offsets. */
  lemma SingleSegmentIsMemcpy(m: seq<Byte>, a: Segment, b: Segment, o: Side, l: Side, push: bool, size: nat)
    requires o.segs == [a] && l.segs == [b] && Transferable(o, l, push, size, |m|) && size > 0
    ensures Executable(m, o, l, size, Single(o.off, l.off, size), [])
    ensures a.base + o.off + size <= |m| && b.base + l.off + size <= |m|
    ensures Effect(m, o, l, push, size, Single(o.off, l.off, size), [])
            == if push then Memcpy(m, a.base + o.off, b.base + l.off, size) else Memcpy(m, b.base + l.off, a.base + o.off, size)
  {
    SingleSegmentStarts(a, b, o, l, size);
    OnePiece(m, o, l, push, size, Walk(Cursor(0, o.off), Cursor(0, l.off), 0, size),
             Piece(Cursor(0, o.off), Cursor(0, l.off), 0, size));
  }

  // ---------------------------------------------------------- two views of a region

  /** The same lengths, wherever the segments lie. */
  predicate Alike(a: seq<Segment>, b: seq<Segment>)
  {
    |a| == |b| && forall i :: 0 <= i < |a| ==> a[i].len == b[i].len
  }

  lemma {:induction false} BeforeAlike(a: seq<Segment>, b: seq<Segment>, i: nat)
    requires Alike(a, b) && i <= |a|
    ensures Before(a, i) == Before(b, i)
  {
    if i > 0 {
      BeforeAlike(a, b, i - 1);
    }
  }

  /** Which operations are issued depends on the lengths only. */
  lemma {:induction false} PlanAlike(a: seq<Segment>, b: seq<Segment>, l: seq<Segment>, w: Walk)
    requires Alike(a, b) && WalkOk(a, l, w)
    ensures WalkOk(b, l, w) && Plan(a, l, w) == Plan(b, l, w)
    decreases |a| - w.origin.index + |l| - w.local.index, w.rem
  {
    if !Over(a, l, w) {
      assert Step(a, l, w) == Step(b, l, w) && Next(a, l, w) == Next(b, l, w);
      PlanAlike(a, b, l, Next(a, l, w));
    }
  }

  lemma IssuedAlike(o: Side, home: seq<Segment>, l: Side, size: nat, i: Issue)
    requires Alike(o.segs, home) && Issued(o, l, size, i)
    ensures Issued(Side(home, o.off), l, size, i)
  {
    if i.Many? {
      var w :| Started(o, l, w, size) && i.ops == Plan(o.segs, l.segs, w);
      PlanAlike(o.segs, home, l.segs, w);
      BeforeAlike(o.segs, home, w.origin.index);
      assert Started(Side(home, o.off), l, w, size);
    }
  }

  /** Both views hold the same bytes. */
  ghost predicate Mirrors(m: seq<Byte>, a: Side, b: Side, size: nat)
    requires Inside(a, size, |m|) && Inside(b, size, |m|)
  {
    forall k :: 0 <= k < size ==> At(a, k) < |m| && At(b, k) < |m| && m[At(a, k)] == m[At(b, k)]
  }

  /** A copy from one view is a copy from the other. */
  lemma CopiedFromMirror(m: seq<Byte>, m': seq<Byte>, dst: Side, a: Side, b: Side, size: nat)
    requires Inside(dst, size, |m|) && Inside(a, size, |m|) && Inside(b, size, |m|)
    requires Mirrors(m, a, b, size) && Copied(m, m', dst, a, size)
    ensures Copied(m, m', dst, b, size)
  {
  }
}
