/**
 The loops of src/mercury_bulk.c, as they update their segment indices, offsets
 and remaining size, each proved against the plan of operations or against the
 flat copy.
 */
module BulkEngine {
  import opened Bytes
  import opened BulkTransfer

  /** hg_bulk_offset_translate (1558-1578). */
  method OffsetTranslate(segments: seq<Segment>, offset: nat) returns (index: nat, segmentOffset: nat)
    ensures offset < Total(segments) ==>
      index < |segments| && segmentOffset < segments[index].len && Before(segments, index) + segmentOffset == offset
    ensures offset >= Total(segments) ==> index == 0 && segmentOffset == offset - Total(segments)
  {
    index, segmentOffset := 0, offset;
    var nextOffset, i := 0, 0;
    while i < |segments|
      invariant i <= |segments| && index == 0
      invariant nextOffset == Before(segments, i) <= offset
      invariant segmentOffset == offset - Before(segments, i)
    {
      nextOffset := nextOffset + segments[i].len;
      if offset < nextOffset {
        index := i;
        BeforeMonotone(segments, i + 1, |segments|);
        break;
      }
      segmentOffset := segmentOffset - segments[i].len;
      i := i + 1;
    }
  }

  /** The caller's use of it: an offset of zero is not translated. */
  method Locate(segments: seq<Segment>, offset: nat, size: nat) returns (c: Cursor)
    requires offset + size <= Total(segments) && size > 0
    ensures CursorOk(segments, c) && Pos(segments, c) == offset
  {
    c := Cursor(0, 0);
    if offset > 0 {
      var index, off := OffsetTranslate(segments, offset);
      c := Cursor(index, off);
    }
  }

  /** hg_bulk_transfer_get_op_count (2246-2296). */
  method GetOpCount(o: seq<Segment>, l: seq<Segment>, startO: Cursor, startL: Cursor, size: nat) returns (count: nat)
    requires CursorOk(o, startO) && CursorOk(l, startL)
    ensures count == |Plan(o, l, Walk(startO, startL, 0, size))|
  {
    var co, cl, remaining: nat := startO, startL, size;
    ghost var w := Walk(co, cl, 0, size);
    count := 0;
    while remaining > 0 && co.index < |o| && cl.index < |l|
      invariant w == Walk(co, cl, w.at, remaining) && WalkOk(o, l, w)
      invariant count + |Plan(o, l, w)| == |Plan(o, l, Walk(startO, startL, 0, size))|
      decreases |o| - co.index + |l| - cl.index
    {
      PlanTurn(o, l, w);
      w := Next(o, l, w);
      var n := Min(o[co.index].len - co.off, l[cl.index].len - cl.off);
      n := Min(remaining, n);
      count := count + 1;
      remaining := remaining - n;
      if remaining == 0 {
        break;
      }
      co, cl := Moved(o, co, n), Moved(l, cl, n);
    }
  }

  lemma Prefix<T>(first: seq<T>, rest: seq<T>, all: seq<T>)
    requires first + rest == all
    ensures |first| <= |all| && first == all[..|first|] && (rest == [] <==> |first| == |all|)
  {
  }

  /**
   hg_bulk_transfer_segments_na (2300-2365): `ids` are the NA operation IDs made
   for it and `posts` is how many operations NA accepts before it refuses one.
   What is in flight afterwards is a prefix of the plan, all of it exactly when
   the call succeeds.
   */
  method TransferSegmentsNa<Id>(
    o: seq<Segment>, l: seq<Segment>, startO: Cursor, startL: Cursor, size: nat, ids: array<Id>, opCount: nat, posts: nat)
    returns (ops: seq<Piece>, used: seq<Id>, ok: bool)
    requires CursorOk(o, startO) && CursorOk(l, startL)
    requires opCount == |Plan(o, l, Walk(startO, startL, 0, size))| <= ids.Length
    ensures ok <==> opCount <= posts
    ensures ops == Plan(o, l, Walk(startO, startL, 0, size))[..Min(opCount, posts)] && used == ids[..|ops|]
  {
    ghost var plan := Plan(o, l, Walk(startO, startL, 0, size));
    var co, cl, remaining: nat, count: nat := startO, startL, size, 0;
    ghost var w := Walk(co, cl, 0, size);
    ops, used := [], [];
    while remaining > 0 && co.index < |o| && cl.index < |l|
      invariant w == Walk(co, cl, w.at, remaining) && w.at + remaining == size && WalkOk(o, l, w)
      invariant ops + Plan(o, l, w) == plan && count == |ops| <= ids.Length && used == ids[..count] && count <= posts
      decreases |o| - co.index + |l| - cl.index
    {
      var n := Min(o[co.index].len - co.off, l[cl.index].len - cl.off);
      n := Min(remaining, n);
      assert n == Step(o, l, w);
      PlanAppends(o, l, w, ops);
      if count == posts {
        Prefix(ops, Plan(o, l, w), plan);
        return ops, used, false;
      }
      ops, used := ops + [Piece(co, cl, size - remaining, n)], used + [ids[count]];
      w := Next(o, l, w);
      count := count + 1;
      remaining := remaining - n;
      if remaining == 0 {
        break;
      }
      co, cl := Moved(o, co, n), Moved(l, cl, n);
    }
    Prefix(ops, Plan(o, l, w), plan);
    ok := count == opCount;
  }

  /** memcpy, whose operands must not overlap. */
  method MemCopy(mem: array<Byte>, d: nat, s: nat, n: nat)
    requires d + n <= mem.Length && s + n <= mem.Length && (n == 0 || d + n <= s || s + n <= d)
    modifies mem
    ensures mem[..] == Memcpy(old(mem[..]), d, s, n)
  {
    var i := 0;
    while i < n
      invariant i <= n
      invariant forall a :: 0 <= a < mem.Length ==> mem[a] == (if d <= a < d + i then old(mem[s + (a - d)]) else old(mem[a]))
    {
      mem[d + i] := mem[s + i];
      i := i + 1;
    }
    forall a | 0 <= a < mem.Length
      ensures mem[..][a] == Memcpy(old(mem[..]), d, s, n)[a]
    {
      MemcpyAt(old(mem[..]), d, s, n, a);
    }
  }

  /** Separate sides give memcpy operands that do not overlap. */
  lemma NoOverlap(o: Side, l: Side, push: bool, size: nat, memory: nat, p: Piece)
    requires Transferable(o, l, push, size, memory) && PieceOk(o, l, p) && p.at + p.size <= size
    ensures p.size == 0 || Here(o.segs, p.origin) + p.size <= Here(l.segs, p.local)
            || Here(l.segs, p.local) + p.size <= Here(o.segs, p.origin)
  {
    var a, b := Here(o.segs, p.origin), Here(l.segs, p.local);
    if p.size > 0 {
      var i, j := if a <= b then b - a else 0, if a <= b then 0 else a - b;
      if i < p.size && j < p.size {
        CursorContiguous(o, p.origin, p.at, p.size, p.at + i);
        CursorContiguous(l, p.local, p.at, p.size, p.at + j);
      }
    }
  }

  /** The first `w.at` flat bytes have been copied and the walk is on course. */
  ghost predicate Underway(before: seq<Byte>, m: seq<Byte>, o: Side, l: Side, push: bool, size: nat, w: Walk)
  {
    && Transferable(o, l, push, size, |before|) && |m| == |before|
    && OnCourse(o, l, w) && Enough(o.segs, l.segs, w) && w.at + w.rem == size
    && CopiedOn(before, m, Dst(o, l, push), Src(o, l, push), size, Range(0, w.at))
  }

  lemma TurnCopies(before: seq<Byte>, m: seq<Byte>, o: Side, l: Side, push: bool, size: nat, at: nat, p: Piece)
    requires Transferable(o, l, push, size, |before|) && PieceOk(o, l, p) && p.at == at && at + p.size <= size
    requires CopiedOn(before, m, Dst(o, l, push), Src(o, l, push), size, Range(0, at))
    ensures CopiedOn(before, Exec(m, o, l, push, p), Dst(o, l, push), Src(o, l, push), size, Range(0, at + p.size))
  {
    ExecExtends(before, m, o, l, push, size, Range(0, at), p);
    RangeJoin(at, p.size);
  }

  lemma TurnKeepsUnderway(before: seq<Byte>, m: seq<Byte>, o: Side, l: Side, push: bool, size: nat, w: Walk)
    requires Underway(before, m, o, l, push, size, w) && !Over(o.segs, l.segs, w)
    ensures PieceOk(o, l, PieceAt(o.segs, l.segs, w))
    ensures Underway(before, Exec(m, o, l, push, PieceAt(o.segs, l.segs, w)), o, l, push, size, Next(o.segs, l.segs, w))
  {
    NextOnCourse(o, l, w);
    NextEnough(o.segs, l.segs, w);
    TurnCopies(before, m, o, l, push, size, w.at, PieceAt(o.segs, l.segs, w));
  }

  lemma WalkFinished(before: seq<Byte>, m: seq<Byte>, o: Side, l: Side, push: bool, size: nat, w: Walk)
    requires Underway(before, m, o, l, push, size, w) && Over(o.segs, l.segs, w)
    ensures w.rem == 0 && Copied(before, m, Dst(o, l, push), Src(o, l, push), size)
  {
    if w.rem > 0 {
      NotAtEnd(o.segs, w.origin, w.rem);
      NotAtEnd(l.segs, w.local, w.rem);
    }
    CopiedAll(before, m, Dst(o, l, push), Src(o, l, push), size, Range(0, w.at));
  }

  /** hg_bulk_memcpy_put and hg_bulk_memcpy_get. */
  method CopyPiece(mem: array<Byte>, push: bool, o: Side, l: Side, size: nat, p: Piece)
    requires Transferable(o, l, push, size, mem.Length) && PieceOk(o, l, p) && p.at + p.size <= size
    modifies mem
    ensures mem[..] == Exec(old(mem[..]), o, l, push, p)
  {
    NoOverlap(o, l, push, size, mem.Length, p);
    if push {
      MemCopy(mem, o.segs[p.origin.index].base + p.origin.off, l.segs[p.local.index].base + p.local.off, p.size);
    } else {
      MemCopy(mem, l.segs[p.local.index].base + p.local.off, o.segs[p.origin.index].base + p.origin.off, p.size);
    }
  }

  lemma SameAsFlat(m: seq<Byte>, m': seq<Byte>, o: Side, l: Side, push: bool, size: nat)
    requires Transferable(o, l, push, size, |m|) && Copied(m, m', Dst(o, l, push), Src(o, l, push), size)
    ensures m' == FlatExec(m, Dst(o, l, push), Src(o, l, push), size)
  {
    FlatExecCopies(m, Dst(o, l, push), Src(o, l, push), size);
    CopiedUnique(m, m', FlatExec(m, Dst(o, l, push), Src(o, l, push), size), Dst(o, l, push), Src(o, l, push), size);
  }

  /** hg_bulk_transfer_segments_self (2081-2130). */
  method TransferSegmentsSelf(mem: array<Byte>, push: bool, o: Side, l: Side, startO: Cursor, startL: Cursor, size: nat)
    requires Transferable(o, l, push, size, mem.Length) && Started(o, l, Walk(startO, startL, 0, size), size)
    modifies mem
    ensures Copied(old(mem[..]), mem[..], Dst(o, l, push), Src(o, l, push), size)
    ensures mem[..] == FlatExec(old(mem[..]), Dst(o, l, push), Src(o, l, push), size)
  {
    var co, cl, remaining: nat := startO, startL, size;
    ghost var before, w := mem[..], Walk(co, cl, 0, size);
    while remaining > 0 && co.index < |o.segs| && cl.index < |l.segs|
      invariant w == Walk(co, cl, w.at, remaining)
      invariant Underway(before, mem[..], o, l, push, size, w)
      decreases |o.segs| - co.index + |l.segs| - cl.index
    {
      var n := Min(o.segs[co.index].len - co.off, l.segs[cl.index].len - cl.off);
      n := Min(remaining, n);
      assert n == Step(o.segs, l.segs, w);
      TurnKeepsUnderway(before, mem[..], o, l, push, size, w);
      CopyPiece(mem, push, o, l, size, Piece(co, cl, size - remaining, n));
      w := Next(o.segs, l.segs, w);
      remaining := remaining - n;
      if remaining == 0 {
        break;
      }
      co, cl := Moved(o.segs, co, n), Moved(l.segs, cl, n);
    }
    WalkFinished(before, mem[..], o, l, push, size, w);
    SameAsFlat(before, mem[..], o, l, push, size);
  }

  /** hg_bulk_transfer_self (2032-2077). */
  method TransferSelf(mem: array<Byte>, push: bool, o: Side, l: Side, size: nat)
    requires Transferable(o, l, push, size, mem.Length) && size > 0
    modifies mem
    ensures Copied(old(mem[..]), mem[..], Dst(o, l, push), Src(o, l, push), size)
    ensures mem[..] == FlatExec(old(mem[..]), Dst(o, l, push), Src(o, l, push), size)
  {
    var co := Locate(o.segs, o.off, size);
    var cl := Locate(l.segs, l.off, size);
    TransferSegmentsSelf(mem, push, o, l, co, cl, size);
  }

  /**
   hg_bulk_transfer_na (2166-2238).  `regv` says that a region was registered as
   a whole.  The error of a wrong operation count cannot occur, and the number
   of operations is bounded by the segments left on both sides.  If NA refuses a
   post, the operations before it stay in flight.
   */
  method TransferNa(o: Side, l: Side, regvO: bool, regvL: bool, size: nat, posts: nat)
    returns (issue: Issue, ok: bool, ghost w: Walk)
    requires o.off + size <= Total(o.segs) && l.off + size <= Total(l.segs) && size > 0
    ensures (regvO || |o.segs| == 1) && (regvL || |l.segs| == 1) ==>
      (ok <==> posts > 0) && issue == if ok then Single(o.off, l.off, size) else Many([])
    ensures !((regvO || |o.segs| == 1) && (regvL || |l.segs| == 1)) ==>
      && Started(o, l, w, size)
      && Tiles(Plan(o.segs, l.segs, w), 0, size)
      && 0 < |Plan(o.segs, l.segs, w)| <= |o.segs| + |l.segs| - w.origin.index - w.local.index - 1
      && (ok <==> |Plan(o.segs, l.segs, w)| <= posts)
      && issue == Many(Plan(o.segs, l.segs, w)[..Min(|Plan(o.segs, l.segs, w)|, posts)])
  {
    w := Walk(Cursor(0, 0), Cursor(0, 0), 0, size);
    if (regvO || |o.segs| == 1) && (regvL || |l.segs| == 1) {
      ok := posts > 0;
      issue := if ok then Single(o.off, l.off, size) else Many([]);
    } else {
      var co := Locate(o.segs, o.off, size);
      var cl := Locate(l.segs, l.off, size);
      w := Walk(co, cl, 0, size);
      PlanTiles(o.segs, l.segs, w);
      PlanBound(o.segs, l.segs, w);
      var opCount := GetOpCount(o.segs, l.segs, co, cl, size);
      var ids := new nat[opCount](i => i);
      var ops, used, posted := TransferSegmentsNa(o.segs, l.segs, co, cl, size, ids, opCount, posts);
      issue, ok := Many(ops), posted;
    }
  }

  lemma NothingToCopy(m: seq<Byte>, o: Side, l: Side, push: bool)
    requires Transferable(o, l, push, 0, |m|)
    ensures Copied(m, m, Dst(o, l, push), Src(o, l, push), 0)
  {
  }

  /** Once its operations took effect, in any order, memory is the flat copy. */
  ghost predicate LeadsToCopy(m: seq<Byte>, o: Side, l: Side, push: bool, size: nat, i: Issue)
    requires Transferable(o, l, push, size, |m|)
  {
    forall order :: (i.Many? ==> multiset(order) == multiset(i.ops)) ==>
      Executable(m, o, l, size, i, order) &&
      Copied(m, Effect(m, o, l, push, size, i, order), Dst(o, l, push), Src(o, l, push), size)
  }

  lemma IssuedLeadsToCopy(m: seq<Byte>, o: Side, l: Side, push: bool, size: nat, i: Issue)
    requires Transferable(o, l, push, size, |m|) && Issued(o, l, size, i)
    ensures LeadsToCopy(m, o, l, push, size, i)
  {
    forall order | i.Many? ==> multiset(order) == multiset(i.ops)
      ensures Executable(m, o, l, size, i, order)
      ensures Copied(m, Effect(m, o, l, push, size, i, order), Dst(o, l, push), Src(o, l, push), size)
    {
      EffectIsFlatCopy(m, o, l, push, size, i, order);
    }
  }

  /**
   What hg_bulk_transfer is called with.  `mem` holds the memory of both
   processes: `o` is the origin's region as the caller's handle describes it, and
   `home` as the origin registered it with NA.  They differ for a handle that
   came with its data, which describes the caller's copy of that data; a transfer
   with oneself has one region only.
   */
  ghost predicate Ready(m: seq<Byte>, push: bool, isSelf: bool, originEager: bool, o: Side, home: seq<Segment>, l: Side, size: nat)
  {
    && Alike(o.segs, home) && Transferable(Side(home, o.off), l, push, size, |m|)
    && (isSelf ==> home == o.segs)
    && (originEager && !push ==> Transferable(o, l, push, size, |m|) && Mirrors(m, o, Side(home, o.off), size))
  }

  /** Copying at once is right with oneself, and for a pull of data that came with the handle. */
  lemma CopiedAtHand(
    m: seq<Byte>, m': seq<Byte>, push: bool, isSelf: bool, originEager: bool, o: Side, home: seq<Segment>, l: Side, size: nat)
    requires Ready(m, push, isSelf, originEager, o, home, l, size) && (isSelf || (originEager && !push))
    requires Transferable(o, l, push, size, |m|) && Copied(m, m', Dst(o, l, push), Src(o, l, push), size)
    ensures Copied(m, m', Dst(Side(home, o.off), l, push), Src(Side(home, o.off), l, push), size)
  {
    if !isSelf {
      CopiedFromMirror(m, m', l, o, Side(home, o.off), size);
    }
  }

  /**
   hg_bulk_transfer (1964-2014): nothing is issued for a transfer of nothing or
   with oneself, or for a pull of data that came with the handle, and then the
   flat copy between the origin's own region and the local one has been made
   when the call returns.  Any other transfer, in particular a push to another
   process, leaves memory alone and issues operations, a single one or several,
   whose effect on the origin's own region, in any order, is that flat copy.
   */
  method Transfer(
    mem: array<Byte>, push: bool, isSelf: bool, originEager: bool, o: Side, ghost home: seq<Segment>, l: Side,
    regvO: bool, regvL: bool, size: nat, posts: nat)
    returns (issue: Option<Issue>, ok: bool)
    requires Ready(mem[..], push, isSelf, originEager, o, home, l, size)
    modifies mem
    ensures issue.None? <==> size == 0 || isSelf || (originEager && !push)
    ensures issue.None? ==>
      ok && Copied(old(mem[..]), mem[..], Dst(Side(home, o.off), l, push), Src(Side(home, o.off), l, push), size)
    ensures issue.Some? ==> mem[..] == old(mem[..])
    ensures issue.Some? && ok ==>
      Issued(Side(home, o.off), l, size, issue.value) && LeadsToCopy(mem[..], Side(home, o.off), l, push, size, issue.value)
    ensures issue.Some? && ok ==> (issue.value.Single? <==> (regvO || |o.segs| == 1) && (regvL || |l.segs| == 1))
    ensures !ok ==> issue.value.Many? && |issue.value.ops| == posts
  {
    ghost var before := mem[..];
    issue, ok := None, true;
    BeforeAlike(o.segs, home, |home|);
    if size == 0 {
      NothingToCopy(mem[..], Side(home, o.off), l, push);
    } else if isSelf || (originEager && !push) {
      TransferSelf(mem, push, o, l, size);
      CopiedAtHand(before, mem[..], push, isSelf, originEager, o, home, l, size);
    } else {
      var i, posted, w := TransferNa(o, l, regvO, regvL, size, posts);
      issue, ok := Some(i), posted;
      if ok {
        assert i.Many? ==> i.ops == Plan(o.segs, l.segs, w);
        IssuedAlike(o, home, l, size, i);
        IssuedLeadsToCopy(mem[..], Side(home, o.off), l, push, size, i);
      }
    }
  }

  // ---------------------------------------------------------------- bulk access

  /** The addresses of a list of fragments, in order. */
  function Addresses(frags: seq<Segment>): (r: seq<nat>)
  {
    if frags == [] then [] else Addresses(frags[..|frags| - 1]) + seq(frags[|frags| - 1].len, i requires i >= 0 => frags[|frags| - 1].base + i)
  }

  /** Fragment `i` reaches to the end of a segment, or to the end of what was asked for. */
  ghost predicate EndsAtBorder(s: Side, size: nat, frags: seq<Segment>, i: nat)
    requires i < |frags|
  {
    var end := |Addresses(frags[..i + 1])|;
    end == size || exists j :: 0 < j <= |s.segs| && Before(s.segs, j) == s.off + end
  }

  lemma BordersStay(s: Side, size: nat, frags: seq<Segment>, more: seq<Segment>, index: nat)
    requires |more| == |frags| + 1 && more[..|frags|] == frags && index < |s.segs|
    requires forall i :: 0 <= i < |frags| ==> EndsAtBorder(s, size, frags, i)
    requires |Addresses(more)| == size || s.off + |Addresses(more)| == Before(s.segs, index + 1)
    ensures forall i :: 0 <= i < |more| ==> EndsAtBorder(s, size, more, i)
  {
    forall i | 0 <= i < |more|
      ensures EndsAtBorder(s, size, more, i)
    {
      if i < |frags| {
        assert EndsAtBorder(s, size, frags, i) && more[..i + 1] == frags[..i + 1];
      } else {
        assert more[..i + 1] == more;
      }
    }
  }

  /** hg_bulk_access (1507-1555): the fragments are the flat bytes from the offset on, all of them unless there were too many. */
  method Access(s: Side, size: nat, maxCount: nat) returns (frags: seq<Segment>)
    requires s.off + size <= Total(s.segs)
    ensures |frags| <= maxCount
    ensures |Addresses(frags)| <= size && (|Addresses(frags)| == size || |frags| == maxCount)
    ensures forall k :: 0 <= k < |Addresses(frags)| ==> Addresses(frags)[k] == At(s, k)
    ensures forall i :: 0 <= i < |frags| ==> EndsAtBorder(s, size, frags, i)
  {
    var index: nat, off: nat := OffsetTranslate(s.segs, s.off);
    var remaining: nat := size;
    frags := [];
    while remaining > 0 && |frags| < maxCount
      invariant |frags| <= maxCount && |Addresses(frags)| + remaining == size
      invariant remaining > 0 ==> index < |s.segs| && off <= s.segs[index].len && Before(s.segs, index) + off == s.off + (size - remaining)
      invariant forall k :: 0 <= k < |Addresses(frags)| ==> Addresses(frags)[k] == At(s, k)
      invariant forall i :: 0 <= i < |frags| ==> EndsAtBorder(s, size, frags, i)
      decreases maxCount - |frags|
    {
      var len := Min(remaining, s.segs[index].len - off);
      ghost var c, at: nat := Cursor(index, off), size - remaining;
      forall k | at <= k < at + len
        ensures At(s, k) == s.segs[index].base + off + (k - at)
      {
        CursorContiguous(s, c, at, len, k);
      }
      var more := frags + [Segment(s.segs[index].base + off, len)];
      assert more[..|more| - 1] == frags;
      BordersStay(s, size, frags, more, index);
      frags, remaining := more, remaining - len;
      index, off := index + 1, 0;
      if remaining > 0 {
        NotAtEnd(s.segs, Cursor(index, 0), remaining);
      }
    }
  }
}
