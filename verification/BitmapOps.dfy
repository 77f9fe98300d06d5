/** The three-operand operations of bitmap.c: the elements of dst are overwritten one after the other. */
module BitmapOps {
  import opened Words
  import opened Blocks
  import opened Obstacks
  import opened Bitmaps
  import opened BitmapBits

  /** dst, which had the elements es, the blocks bs and the current element cur, is being overwritten:
      p has been computed, of which k blocks are kept and stored. */
  ghost predicate Rewriting(dst: Bitmap, es: seq<Element>, bs: seq<Block>, cur: Element?, p: seq<Block>, k: nat)
    reads dst, dst.elems
  {
    && dst.Links() && dst.HasCurrent()
    && |dst.elems| == |dst.blocks| && |es| == |bs| && es <= dst.elems
    && k <= |dst.elems| && Sized(dst.blocks) && Rewritten(bs, dst.blocks, p, k)
    && (if es == [] then dst.elems != [] ==> dst.current == dst.elems[0] else dst.current == cur)
  }

  /** The operand a is still as it was, apart from dst, with its elements es and blocks bs. */
  ghost predicate Reading(a: Bitmap, es: seq<Element>, bs: seq<Block>, dst: Bitmap)
    reads a, a.elems, dst`elems, dst.obstack`free
  {
    && a.Links() && a.elems == es && a.blocks == bs && |es| == |bs| && Canonical(bs)
    && (forall i :: 0 <= i < |es| ==> es[i] !in dst.Elements())
  }

  lemma ReadAll(a: Bitmap, es: seq<Element>, bs: seq<Block>, dst: Bitmap)
    requires Reading(a, es, bs, dst)
    ensures a.elems == es && a.blocks == bs && |es| == |bs| && Canonical(bs)
  {}

  /** The element at position i of an operand. */
  lemma ReadAt(a: Bitmap, es: seq<Element>, bs: seq<Block>, dst: Bitmap, i: nat)
    requires Reading(a, es, bs, dst) && i < |es|
    ensures |es| == |bs| && es[i].next == Nth(es, i + 1) && Block(es[i].indx, es[i].bits) == bs[i]
    ensures |es[i].bits| == ELEMENT_WORDS && es[i].bits != ZEROS && es[i] !in dst.Elements()
  {
    a.NodeAt(i);
  }

  /** `if (!dst_elt) dst_elt = bitmap_elt_insert_after (...); else dst_elt->indx = ...;` */
  method Slot(dst: Bitmap, dstElt: Element?, dstPrev: Element?, idx: nat, ghost k: nat) returns (elt: Element)
    requires dst.obstack.Valid() && dst.Links() && dst.HasCurrent()
    requires k <= |dst.elems| && dstElt == Nth(dst.elems, k) && dstPrev == Nth(dst.elems, k - 1)
    requires Sized(dst.blocks)
    modifies dst, dst.elems, dst.obstack, dst.obstack.free
    ensures dst.obstack.Valid() && dst.Links() && dst.HasCurrent() && dst.Conserves()
    ensures if k < old(|dst.elems|) then dst.elems == old(dst.elems) && dst.current == old(dst.current)
            else dst.elems == old(dst.elems) + [elt]
                 && dst.current == (if k == 0 then elt else old(dst.current))
    ensures k < |dst.elems| && elt == dst.elems[k] && elt.indx == idx && |elt.bits| == ELEMENT_WORDS
    ensures |dst.blocks| == |dst.elems|
    ensures forall m :: 0 <= m < old(|dst.elems|) && m != k ==> dst.blocks[m] == old(dst.blocks)[m]
  {
    hide Bitmap.Linked, Bitmap.Holding, Bitmap.Node, Bitmap.Links, Obstack.Valid, Obstack.Linked, Both;
    dst.Ends();
    dst.Apart();
    if k < |dst.elems| { dst.NodeAt(k); }
    if dstElt == null {
      elt := dst.InsertAfter(dstPrev, idx, k);
      dst.NodeAt(k);
      WithEnd(old(dst.blocks), Block(idx, ZEROS));
    } else {
      elt := dstElt;
      dst.WriteIndex(elt, k, idx);
    }
  }

  /** Computing one block from two elements with the same index, and moving on in dst unless it is all zero. */
  method EmitOp(op: BoolOp, dst: Bitmap, ghost a: Bitmap, x: Element, ghost b: Bitmap, y: Element,
                dstElt: Element?, dstPrev: Element?,
                ghost es: seq<Element>, ghost bs: seq<Block>, ghost cur: Element?, ghost p: seq<Block>, ghost k: nat)
    returns (newElt: Element?, newPrev: Element?, ghost newK: nat)
    requires dst.obstack.Valid() && Rewriting(dst, es, bs, cur, p, k) && a != dst && b != dst
    requires dstElt == Nth(dst.elems, k) && dstPrev == Nth(dst.elems, k - 1)
    requires Reading(a, a.elems, a.blocks, dst) && Reading(b, b.elems, b.blocks, dst)
    requires x in a.elems && y in b.elems
    requires |x.bits| == |y.bits| == ELEMENT_WORDS
    modifies dst, dst.obstack, dst.Elements()
    ensures dst.obstack.Valid() && dst.Conserves()
    ensures Rewriting(dst, es, bs, cur, p + [Block(x.indx, WordsOp(op, x.bits, y.bits))], newK)
    ensures Reading(a, old(a.elems), old(a.blocks), dst) && Reading(b, old(b.elems), old(b.blocks), dst)
    ensures newElt == Nth(dst.elems, newK) && newPrev == Nth(dst.elems, newK - 1)
  {
    hide Bitmap.Linked, Bitmap.Holding, Bitmap.Node, Bitmap.Links, Obstack.Valid, Obstack.Linked,
      Rewritten, WordsOp, Sized;
    newElt, newPrev, newK := dstElt, dstPrev, k;
    var elt := Slot(dst, dstElt, dstPrev, x.indx, k);
    dst.Apart();
    var ior := dst.StoreOp(op, elt, k, x, y);
    RewriteStep(bs, old(dst.blocks), dst.blocks, p, k, Block(x.indx, WordsOp(op, x.bits, y.bits)));
    dst.NodeAt(k);
    newElt := elt;
    if ior != ZERO {
      newPrev := elt;
      newElt := elt.next;
      newK := k + 1;
    }
  }

  /** Copying one element, which is not all zero. */
  method EmitCopy(dst: Bitmap, ghost a: Bitmap, ghost b: Bitmap, src: Element, dstElt: Element?, dstPrev: Element?,
                  ghost es: seq<Element>, ghost bs: seq<Block>, ghost cur: Element?, ghost p: seq<Block>, ghost k: nat)
    returns (newElt: Element?, newPrev: Element?)
    requires dst.obstack.Valid() && Rewriting(dst, es, bs, cur, p, k)
    requires dstElt == Nth(dst.elems, k) && dstPrev == Nth(dst.elems, k - 1)
    requires a != dst && b != dst && (src in a.elems || src in b.elems)
    requires Reading(a, a.elems, a.blocks, dst) && Reading(b, b.elems, b.blocks, dst)
    requires |src.bits| == ELEMENT_WORDS && src.bits != ZEROS
    modifies dst, dst.obstack, dst.Elements()
    ensures dst.obstack.Valid() && dst.Conserves()
    ensures Rewriting(dst, es, bs, cur, p + [Block(src.indx, src.bits)], k + 1)
    ensures Reading(a, old(a.elems), old(a.blocks), dst) && Reading(b, old(b.elems), old(b.blocks), dst)
    ensures newElt == Nth(dst.elems, k + 1) && newPrev == Nth(dst.elems, k)
  {
    hide Bitmap.Linked, Bitmap.Holding, Bitmap.Node, Bitmap.Links, Obstack.Valid, Obstack.Linked,
      Rewritten, Sized;
    var elt := Slot(dst, dstElt, dstPrev, src.indx, k);
    dst.Apart();
    dst.WriteBits(elt, k, src.bits);
    RewriteStep(bs, old(dst.blocks), dst.blocks, p, k, Block(src.indx, src.bits));
    dst.NodeAt(k);
    newPrev := elt;
    newElt := elt.next;
  }

  /** The fixed data of one run: operands, operation, what dst held on entry, what the operands hold. */
  datatype Run = Run(op: BoolOp, dst: Bitmap, a: Bitmap, b: Bitmap,
                     es: seq<Element>, bs: seq<Block>, cur: Element?,
                     aes: seq<Element>, A: seq<Block>, bes: seq<Element>, B: seq<Block>)

  /** How far the run is: the blocks computed, how many are stored, and the positions in the operands. */
  datatype Pos = Pos(p: seq<Block>, k: nat, i: nat, j: nat)

  ghost function Left(r: Run, c: Pos): nat {
    if c.i <= |r.aes| && c.j <= |r.bes| then |r.aes| - c.i + |r.bes| - c.j else 0
  }

  /** The loop invariant of all three-operand operations. */
  ghost predicate Running(r: Run, c: Pos, dstElt: Element?, dstPrev: Element?, aElt: Element?, bElt: Element?)
    reads r.dst, r.dst.elems, r.a, r.a.elems, r.b, r.b.elems, r.dst.obstack`free
  {
    && r.dst != r.a && r.dst != r.b
    && Rewriting(r.dst, r.es, r.bs, r.cur, c.p, c.k)
    && Reading(r.a, r.aes, r.A, r.dst) && Reading(r.b, r.bes, r.B, r.dst)
    && c.i <= |r.aes| && c.j <= |r.bes|
    && dstElt == Nth(r.dst.elems, c.k) && dstPrev == Nth(r.dst.elems, (c.k as int) - 1)
    && aElt == Nth(r.aes, c.i) && bElt == Nth(r.bes, c.j)
    && c.p + RawMerge(r.op, r.A, c.i, r.B, c.j) == RawMerge(r.op, r.A, 0, r.B, 0)
  }

  /** Matching elements: one block is computed, and kept unless it is all zero. */
  method MatchStep(ghost r: Run, ghost c: Pos, op: BoolOp, dst: Bitmap, dstElt: Element?, dstPrev: Element?,
                   aElt: Element, bElt: Element)
    returns (dstElt': Element?, dstPrev': Element?, aElt': Element?, bElt': Element?, ghost c': Pos)
    requires r.dst == dst && r.op == op && dst.obstack.Valid() && Running(r, c, dstElt, dstPrev, aElt, bElt)
    requires aElt.indx == bElt.indx
    modifies dst, dst.obstack, dst.Elements()
    ensures dst.obstack.Valid() && dst.Conserves() && Running(r, c', dstElt', dstPrev', aElt', bElt')
    ensures Left(r, c') < Left(r, c)
  {
    hide Bitmap.Linked, Bitmap.Holding, Bitmap.Node, Bitmap.Links, Obstack.Valid, Obstack.Linked, Both, Rewriting, Reading,
      Rewritten, Sized, Sorted, NonZero, WordsOp, RawMerge;
    ReadAll(r.a, r.aes, r.A, dst);
    ReadAll(r.b, r.bes, r.B, dst);
    ReadAt(r.a, r.aes, r.A, dst, c.i);
    ReadAt(r.b, r.bes, r.B, dst, c.j);
    StepBoth(op, r.A, c.i, r.B, c.j, c.p);
    ghost var blk := Block(aElt.indx, WordsOp(op, aElt.bits, bElt.bits));
    aElt', bElt' := aElt.next, bElt.next;
    ghost var k;
    dstElt', dstPrev', k := EmitOp(op, dst, r.a, aElt, r.b, bElt, dstElt, dstPrev, r.es, r.bs, r.cur, c.p, c.k);
    c' := Pos(c.p + [blk], k, c.i + 1, c.j + 1);
  }

  /** Copying a single element: aElt if left, else bElt. */
  method CopyStep(ghost r: Run, ghost c: Pos, dst: Bitmap, dstElt: Element?, dstPrev: Element?,
                  aElt: Element?, bElt: Element?, left: bool)
    returns (dstElt': Element?, dstPrev': Element?, aElt': Element?, bElt': Element?, ghost c': Pos)
    requires r.dst == dst && dst.obstack.Valid() && Running(r, c, dstElt, dstPrev, aElt, bElt)
    requires if left then aElt != null && (bElt == null || aElt.indx < bElt.indx) && KeepsLeft(r.op)
             else bElt != null && (aElt == null || bElt.indx < aElt.indx) && KeepsRight(r.op)
    modifies dst, dst.obstack, dst.Elements()
    ensures dst.obstack.Valid() && dst.Conserves() && Running(r, c', dstElt', dstPrev', aElt', bElt')
    ensures Left(r, c') < Left(r, c)
  {
    hide Bitmap.Linked, Bitmap.Holding, Bitmap.Node, Bitmap.Links, Obstack.Valid, Obstack.Linked, Both, Rewriting, Reading,
      Rewritten, Sized, Sorted, NonZero, WordsOp, RawMerge, KeepsLeft, KeepsRight;
    ReadAll(r.a, r.aes, r.A, dst);
    ReadAll(r.b, r.bes, r.B, dst);
    if c.i < |r.aes| { ReadAt(r.a, r.aes, r.A, dst, c.i); }
    if c.j < |r.bes| { ReadAt(r.b, r.bes, r.B, dst, c.j); }
    var src;
    if left {
      StepLeft(r.op, r.A, c.i, r.B, c.j, c.p);
      src, aElt', bElt' := aElt, aElt.next, bElt;
    } else {
      StepRight(r.op, r.A, c.i, r.B, c.j, c.p);
      src, aElt', bElt' := bElt, aElt, bElt.next;
    }
    ghost var blk := Block(src.indx, src.bits);
    dstElt', dstPrev' := EmitCopy(dst, r.a, r.b, src, dstElt, dstPrev, r.es, r.bs, r.cur, c.p, c.k);
    c' := Pos(c.p + [blk], c.k + 1, if left then c.i + 1 else c.i, if left then c.j else c.j + 1);
  }

  /** Passing over an element the operation keeps nothing of. */
  lemma SkipLeft(r: Run, c: Pos, dstElt: Element?, dstPrev: Element?, aElt: Element, bElt: Element?) returns (c': Pos)
    requires Running(r, c, dstElt, dstPrev, aElt, bElt) && !KeepsLeft(r.op)
    requires bElt == null || aElt.indx < bElt.indx
    ensures Running(r, c', dstElt, dstPrev, aElt.next, bElt) && Left(r, c') < Left(r, c)
  {
    hide Bitmap.Linked, Bitmap.Holding, Bitmap.Node, Bitmap.Links, Both, Rewriting, Reading, Sized, Sorted, NonZero, RawMerge, KeepsLeft;
    ReadAll(r.a, r.aes, r.A, r.dst);
    ReadAll(r.b, r.bes, r.B, r.dst);
    ReadAt(r.a, r.aes, r.A, r.dst, c.i);
    if c.j < |r.bes| { ReadAt(r.b, r.bes, r.B, r.dst, c.j); }
    StepLeft(r.op, r.A, c.i, r.B, c.j, c.p);
    c' := c.(i := c.i + 1);
  }

  lemma SkipRight(r: Run, c: Pos, dstElt: Element?, dstPrev: Element?, aElt: Element?, bElt: Element) returns (c': Pos)
    requires Running(r, c, dstElt, dstPrev, aElt, bElt) && !KeepsRight(r.op)
    requires aElt == null || bElt.indx < aElt.indx
    ensures Running(r, c', dstElt, dstPrev, aElt, bElt.next) && Left(r, c') < Left(r, c)
  {
    hide Bitmap.Linked, Bitmap.Holding, Bitmap.Node, Bitmap.Links, Both, Rewriting, Reading, Sized, Sorted, NonZero, RawMerge, KeepsRight;
    ReadAll(r.a, r.aes, r.A, r.dst);
    ReadAll(r.b, r.bes, r.B, r.dst);
    if c.i < |r.aes| { ReadAt(r.a, r.aes, r.A, r.dst, c.i); }
    ReadAt(r.b, r.bes, r.B, r.dst, c.j);
    StepRight(r.op, r.A, c.i, r.B, c.j, c.p);
    c' := c.(j := c.j + 1);
  }

  /** The start of a run. */
  lemma Start(op: BoolOp, dst: Bitmap, a: Bitmap, b: Bitmap) returns (r: Run, c: Pos)
    requires dst != a && dst != b && dst.Valid() && a.Valid() && b.Valid() && dst.obstack.Valid()
    ensures r == Run(op, dst, a, b, dst.elems, dst.blocks, dst.current, a.elems, a.blocks, b.elems, b.blocks)
    ensures Running(r, c, dst.first, null, a.first, b.first) && c == Pos([], 0, 0, 0)
  {
    hide Rewritten, RawMerge;
    r := Run(op, dst, a, b, dst.elems, dst.blocks, dst.current, a.elems, a.blocks, b.elems, b.blocks);
    c := Pos([], 0, 0, 0);
    dst.Separate(a);
    dst.Separate(b);
    StartRewrite(dst.blocks);
    NothingComputed();
  }

  /** The end of a run: `bitmap_elt_clear_from (dst, dst_elt); if (dst->current) dst->indx = dst->current->indx;` */
  method Stop(ghost r: Run, ghost c: Pos, dst: Bitmap, dstElt: Element?, ghost dstPrev: Element?,
              ghost aElt: Element?, ghost bElt: Element?, ghost at: nat)
    requires r.dst == dst && dst.obstack.Valid() && Running(r, c, dstElt, dstPrev, aElt, bElt)
    requires (aElt == null && (bElt == null || !KeepsRight(r.op))) || (bElt == null && !KeepsLeft(r.op))
    requires r.es != [] ==> at < |r.es| && r.es[at] == r.cur
    requires Canonical(r.A) && Canonical(r.B)
    modifies dst, dst.obstack, dst.Elements()
    ensures dst.obstack.Valid() && dst.Conserves()
    ensures dst.Links() && dst.blocks == Merge(r.op, r.A, r.B) && Canonical(dst.blocks)
    ensures r.es == [] ==> dst.CurrentOk()
    ensures r.es != [] ==> (dst.CurrentOk() <==> CurrentSurvives(r.bs, at, RawMerge(r.op, r.A, 0, r.B, 0)))
  {
    hide Bitmap.Linked, Bitmap.Holding, Bitmap.Node, Bitmap.Links, Obstack.Valid, Obstack.Linked, Rewriting, Reading,
      Rewritten, CurrentSurvives, Sized, Sorted, NonZero, RawMerge, DropZero, KeepsLeft, KeepsRight, Touched;
    ReadAll(r.a, r.aes, r.A, r.dst);
    ReadAll(r.b, r.bes, r.B, r.dst);
    NothingLeft(r.op, r.A, c.i, r.B, c.j);
    assert c.p + [] == c.p;
    RawMergeGood(r.op, r.A, r.B);
    Finish(dst, dstElt, r.es, r.bs, r.cur, at, c.p, c.k);
  }

  /** `bitmap_elt_clear_from (dst, dst_elt); if (dst->current) dst->indx = dst->current->indx;`
      c is the position at which `current` was found on entry. */
  method Finish(dst: Bitmap, dstElt: Element?, ghost es: seq<Element>, ghost bs: seq<Block>, ghost cur: Element?,
                ghost c: nat, ghost p: seq<Block>, ghost k: nat)
    requires dst.obstack.Valid() && Rewriting(dst, es, bs, cur, p, k) && Sized(p) && Sorted(p)
    requires dstElt == Nth(dst.elems, k)
    requires es != [] ==> c < |es| && es[c] == cur
    modifies dst, dst.obstack, dst.Elements()
    ensures dst.obstack.Valid() && dst.Conserves()
    ensures dst.Links() && dst.blocks == DropZero(p) && Canonical(dst.blocks)
    ensures es == [] ==> dst.CurrentOk()
    ensures es != [] ==> (dst.CurrentOk() <==> CurrentSurvives(bs, c, p))
  {
    hide Bitmap.Linked, Bitmap.Holding, Bitmap.Node, Bitmap.Links, Obstack.Valid, Obstack.Linked,
      Rewritten, CurrentSurvives, Sized, Sorted, NonZero;
    RewriteEnd(bs, dst.blocks, p, k);
    DropZeroShape(p, 0);
    dst.Distinct();
    if es != [] {
      RewriteCurrent(bs, dst.blocks, p, k, c);
      dst.NodeAt(c);
    }
    dst.ClearFrom(dstElt, k);
    if dst.current != null {
      dst.indx := dst.current.indx;
    }
  }

  /** bitmap_and, for a != b: dst = a & b */
  method AndDistinct(dst: Bitmap, a: Bitmap, b: Bitmap)
    requires dst != a && dst != b && a != b
    requires dst.Valid() && a.Valid() && b.Valid() && dst.obstack.Valid()
    modifies dst, dst.obstack, dst.Elements()
    ensures dst.obstack.Valid() && dst.Conserves()
    ensures dst.Links() && dst.blocks == Merge(AndOp, old(a.blocks), old(b.blocks)) && Canonical(dst.blocks)
    ensures old(dst.elems) == [] ==> dst.CurrentOk()
    ensures old(dst.elems) != [] ==> (dst.CurrentOk() <==>
      CurrentSurvives(old(dst.blocks), old(dst.CurrentAt()), RawMerge(AndOp, old(a.blocks), 0, old(b.blocks), 0)))
  {
    hide Bitmap.Linked, Bitmap.Holding, Bitmap.Node, Bitmap.Links, Obstack.Valid, Obstack.Linked, Both, Running,
      Rewritten, CurrentSurvives, Sized, Sorted, NonZero, RawMerge, DropZero;
    ghost var r, c := Start(AndOp, dst, a, b);
    var dstElt, aElt, bElt := dst.first, a.first, b.first;
    var dstPrev: Element? := null;
    while aElt != null && bElt != null
      invariant dst.obstack.Valid() && dst.Conserves() && Running(r, c, dstElt, dstPrev, aElt, bElt)
      decreases Left(r, c)
    {
      if aElt.indx < bElt.indx {
        c := SkipLeft(r, c, dstElt, dstPrev, aElt, bElt);
        aElt := aElt.next;
      } else if bElt.indx < aElt.indx {
        c := SkipRight(r, c, dstElt, dstPrev, aElt, bElt);
        bElt := bElt.next;
      } else {
        // Matching elements: a & b.
        dstElt, dstPrev, aElt, bElt, c := MatchStep(r, c, AndOp, dst, dstElt, dstPrev, aElt, bElt);
      }
    }
    Stop(r, c, dst, dstElt, dstPrev, aElt, bElt, if r.es == [] then 0 else old(dst.CurrentAt()));
  }

  /** bitmap_and_compl, for a != b: dst = a & ~b */
  method AndComplDistinct(dst: Bitmap, a: Bitmap, b: Bitmap)
    requires dst != a && dst != b && a != b
    requires dst.Valid() && a.Valid() && b.Valid() && dst.obstack.Valid()
    modifies dst, dst.obstack, dst.Elements()
    ensures dst.obstack.Valid() && dst.Conserves()
    ensures dst.Links() && dst.blocks == Merge(AndComplOp, old(a.blocks), old(b.blocks)) && Canonical(dst.blocks)
    ensures old(dst.elems) == [] ==> dst.CurrentOk()
    ensures old(dst.elems) != [] ==> (dst.CurrentOk() <==>
      CurrentSurvives(old(dst.blocks), old(dst.CurrentAt()), RawMerge(AndComplOp, old(a.blocks), 0, old(b.blocks), 0)))
  {
    hide Bitmap.Linked, Bitmap.Holding, Bitmap.Node, Bitmap.Links, Obstack.Valid, Obstack.Linked, Both, Running,
      Rewritten, CurrentSurvives, Sized, Sorted, NonZero, RawMerge, DropZero;
    ghost var r, c := Start(AndComplOp, dst, a, b);
    var dstElt, aElt, bElt := dst.first, a.first, b.first;
    var dstPrev: Element? := null;
    while aElt != null
      invariant dst.obstack.Valid() && dst.Conserves() && Running(r, c, dstElt, dstPrev, aElt, bElt)
      decreases Left(r, c)
    {
      if bElt == null || aElt.indx < bElt.indx {
        // Copy aElt.
        dstElt, dstPrev, aElt, bElt, c := CopyStep(r, c, dst, dstElt, dstPrev, aElt, bElt, true);
      } else if bElt.indx < aElt.indx {
        c := SkipRight(r, c, dstElt, dstPrev, aElt, bElt);
        bElt := bElt.next;
      } else {
        // Matching elements: a & ~b.
        dstElt, dstPrev, aElt, bElt, c := MatchStep(r, c, AndComplOp, dst, dstElt, dstPrev, aElt, bElt);
      }
    }
    Stop(r, c, dst, dstElt, dstPrev, aElt, bElt, if r.es == [] then 0 else old(dst.CurrentAt()));
  }

  /** bitmap_xor, for a != b: dst = a ^ b */
  method XorDistinct(dst: Bitmap, a: Bitmap, b: Bitmap)
    requires dst != a && dst != b && a != b
    requires dst.Valid() && a.Valid() && b.Valid() && dst.obstack.Valid()
    modifies dst, dst.obstack, dst.Elements()
    ensures dst.obstack.Valid() && dst.Conserves()
    ensures dst.Links() && dst.blocks == Merge(XorOp, old(a.blocks), old(b.blocks)) && Canonical(dst.blocks)
    ensures old(dst.elems) == [] ==> dst.CurrentOk()
    ensures old(dst.elems) != [] ==> (dst.CurrentOk() <==>
      CurrentSurvives(old(dst.blocks), old(dst.CurrentAt()), RawMerge(XorOp, old(a.blocks), 0, old(b.blocks), 0)))
  {
    hide Bitmap.Linked, Bitmap.Holding, Bitmap.Node, Bitmap.Links, Obstack.Valid, Obstack.Linked, Both, Running,
      Rewritten, CurrentSurvives, Sized, Sorted, NonZero, RawMerge, DropZero;
    ghost var r, c := Start(XorOp, dst, a, b);
    var dstElt, aElt, bElt := dst.first, a.first, b.first;
    var dstPrev: Element? := null;
    while aElt != null || bElt != null
      invariant dst.obstack.Valid() && dst.Conserves() && Running(r, c, dstElt, dstPrev, aElt, bElt)
      decreases Left(r, c)
    {
      if aElt != null && bElt != null && aElt.indx == bElt.indx {
        // Matching elements: a ^ b.
        dstElt, dstPrev, aElt, bElt, c := MatchStep(r, c, XorOp, dst, dstElt, dstPrev, aElt, bElt);
      } else {
        // Copy a single element.
        var left := bElt == null || (aElt != null && aElt.indx < bElt.indx);
        dstElt, dstPrev, aElt, bElt, c := CopyStep(r, c, dst, dstElt, dstPrev, aElt, bElt, left);
      }
    }
    Stop(r, c, dst, dstElt, dstPrev, aElt, bElt, if r.es == [] then 0 else old(dst.CurrentAt()));
  }

  // ---- bitmap_ior, which also reports whether dst changes ----

  /** The flag says exactly whether something other than what dst held has been stored. */
  ghost predicate Changing(dst: Bitmap, bs: seq<Block>, p: seq<Block>, changed: bool)
    reads dst`blocks
  {
    (changed <==> !(DropZero(p) <= bs)) && (!changed ==> dst.blocks == bs)
  }

  /** One block of a | b from matching elements. */
  method EmitIor(dst: Bitmap, ghost a: Bitmap, x: Element, ghost b: Bitmap, y: Element,
                 dstElt: Element?, dstPrev: Element?, was: bool,
                 ghost es: seq<Element>, ghost bs: seq<Block>, ghost cur: Element?, ghost p: seq<Block>, ghost k: nat)
    returns (newElt: Element?, newPrev: Element?, changed: bool)
    requires dst.obstack.Valid() && Rewriting(dst, es, bs, cur, p, k) && Changing(dst, bs, p, was)
    requires dstElt == Nth(dst.elems, k) && dstPrev == Nth(dst.elems, k - 1) && a != dst && b != dst
    requires Reading(a, a.elems, a.blocks, dst) && Reading(b, b.elems, b.blocks, dst)
    requires x in a.elems && y in b.elems
    requires |x.bits| == |y.bits| == ELEMENT_WORDS && x.bits != ZEROS
    modifies dst, dst.obstack, dst.Elements()
    ensures dst.obstack.Valid() && dst.Conserves()
    ensures Rewriting(dst, es, bs, cur, p + [Block(x.indx, WordsOp(IorOp, x.bits, y.bits))], k + 1)
    ensures Changing(dst, bs, p + [Block(x.indx, WordsOp(IorOp, x.bits, y.bits))], changed)
    ensures Reading(a, old(a.elems), old(a.blocks), dst) && Reading(b, old(b.elems), old(b.blocks), dst)
    ensures newElt == Nth(dst.elems, k + 1) && newPrev == Nth(dst.elems, k)
  {
    hide Bitmap.Linked, Bitmap.Holding, Bitmap.Node, Bitmap.Links, Obstack.Valid, Obstack.Linked,
      Rewritten, WordsOp, Sized, DropZero;
    ghost var blk := Block(x.indx, WordsOp(IorOp, x.bits, y.bits));
    OrNonZero(x.bits, y.bits);
    RewriteEnd(bs, dst.blocks, p, k);
    dst.Apart();
    if k < |dst.elems| { dst.NodeAt(k); SizedAt(dst.blocks, k); }
    var elt;
    if !was && dstElt != null && dstElt.indx == x.indx {
      elt := dstElt;
      changed := dst.StoreIor(elt, k, x, y);
    } else {
      changed := true;
      elt := Slot(dst, dstElt, dstPrev, x.indx, k);
      dst.Apart();
      var ior := dst.StoreOp(IorOp, elt, k, x, y);
    }
    RewriteStep(bs, old(dst.blocks), dst.blocks, p, k, blk);
    ChangeStep(bs, p, blk);
    dst.NodeAt(k);
    newPrev := elt;
    newElt := elt.next;
  }

  /** One block of a | b copied from a single element. */
  method EmitIorCopy(dst: Bitmap, ghost a: Bitmap, ghost b: Bitmap, src: Element,
                     dstElt: Element?, dstPrev: Element?, was: bool,
                     ghost es: seq<Element>, ghost bs: seq<Block>, ghost cur: Element?, ghost p: seq<Block>, ghost k: nat)
    returns (newElt: Element?, newPrev: Element?, changed: bool)
    requires dst.obstack.Valid() && Rewriting(dst, es, bs, cur, p, k) && Changing(dst, bs, p, was)
    requires dstElt == Nth(dst.elems, k) && dstPrev == Nth(dst.elems, k - 1) && a != dst && b != dst
    requires Reading(a, a.elems, a.blocks, dst) && Reading(b, b.elems, b.blocks, dst)
    requires src in a.elems || src in b.elems
    requires |src.bits| == ELEMENT_WORDS && src.bits != ZEROS
    modifies dst, dst.obstack, dst.Elements()
    ensures dst.obstack.Valid() && dst.Conserves()
    ensures Rewriting(dst, es, bs, cur, p + [Block(src.indx, src.bits)], k + 1)
    ensures Changing(dst, bs, p + [Block(src.indx, src.bits)], changed)
    ensures Reading(a, old(a.elems), old(a.blocks), dst) && Reading(b, old(b.elems), old(b.blocks), dst)
    ensures newElt == Nth(dst.elems, k + 1) && newPrev == Nth(dst.elems, k)
  {
    hide Bitmap.Linked, Bitmap.Holding, Bitmap.Node, Bitmap.Links, Obstack.Valid, Obstack.Linked,
      Rewritten, WordsOp, Sized, DropZero;
    ghost var blk := Block(src.indx, src.bits);
    RewriteEnd(bs, dst.blocks, p, k);
    dst.Apart();
    if k < |dst.elems| { dst.NodeAt(k); SizedAt(dst.blocks, k); }
    var elt;
    if !was && dstElt != null && dstElt.indx == src.indx {
      elt := dstElt;
      changed := dst.StoreCopy(elt, k, src);
    } else {
      changed := true;
      elt := Slot(dst, dstElt, dstPrev, src.indx, k);
      dst.Apart();
      dst.WriteBits(elt, k, src.bits);
    }
    RewriteStep(bs, old(dst.blocks), dst.blocks, p, k, blk);
    ChangeStep(bs, p, blk);
    dst.NodeAt(k);
    newPrev := elt;
    newElt := elt.next;
  }

  method IorMatchStep(ghost r: Run, ghost c: Pos, dst: Bitmap, dstElt: Element?, dstPrev: Element?,
                      aElt: Element, bElt: Element, was: bool)
    returns (dstElt': Element?, dstPrev': Element?, aElt': Element?, bElt': Element?, changed: bool, ghost c': Pos)
    requires r.dst == dst && r.op == IorOp && dst.obstack.Valid() && Running(r, c, dstElt, dstPrev, aElt, bElt)
    requires aElt.indx == bElt.indx && Changing(dst, r.bs, c.p, was)
    modifies dst, dst.obstack, dst.Elements()
    ensures dst.obstack.Valid() && dst.Conserves() && Running(r, c', dstElt', dstPrev', aElt', bElt')
    ensures Left(r, c') < Left(r, c) && Changing(dst, r.bs, c'.p, changed)
  {
    hide Bitmap.Linked, Bitmap.Holding, Bitmap.Node, Bitmap.Links, Obstack.Valid, Obstack.Linked, Both, Rewriting, Reading,
      Rewritten, Sized, Sorted, NonZero, WordsOp, RawMerge, KeepsLeft, KeepsRight, Changing;
    ReadAll(r.a, r.aes, r.A, dst);
    ReadAll(r.b, r.bes, r.B, dst);
    ReadAt(r.a, r.aes, r.A, dst, c.i);
    ReadAt(r.b, r.bes, r.B, dst, c.j);
    StepBoth(IorOp, r.A, c.i, r.B, c.j, c.p);
    ghost var blk := Block(aElt.indx, WordsOp(IorOp, aElt.bits, bElt.bits));
    aElt', bElt' := aElt.next, bElt.next;
    dstElt', dstPrev', changed := EmitIor(dst, r.a, aElt, r.b, bElt, dstElt, dstPrev, was, r.es, r.bs, r.cur, c.p, c.k);
    c' := Pos(c.p + [blk], c.k + 1, c.i + 1, c.j + 1);
  }

  method IorCopyStep(ghost r: Run, ghost c: Pos, dst: Bitmap, dstElt: Element?, dstPrev: Element?,
                     aElt: Element?, bElt: Element?, left: bool, was: bool)
    returns (dstElt': Element?, dstPrev': Element?, aElt': Element?, bElt': Element?, changed: bool, ghost c': Pos)
    requires r.dst == dst && dst.obstack.Valid() && Running(r, c, dstElt, dstPrev, aElt, bElt)
    requires if left then aElt != null && (bElt == null || aElt.indx < bElt.indx) && KeepsLeft(r.op)
             else bElt != null && (aElt == null || bElt.indx < aElt.indx) && KeepsRight(r.op)
    requires Changing(dst, r.bs, c.p, was)
    modifies dst, dst.obstack, dst.Elements()
    ensures dst.obstack.Valid() && dst.Conserves() && Running(r, c', dstElt', dstPrev', aElt', bElt')
    ensures Left(r, c') < Left(r, c) && Changing(dst, r.bs, c'.p, changed)
  {
    hide Bitmap.Linked, Bitmap.Holding, Bitmap.Node, Bitmap.Links, Obstack.Valid, Obstack.Linked, Both, Rewriting, Reading,
      Rewritten, Sized, Sorted, NonZero, WordsOp, RawMerge, KeepsLeft, KeepsRight, Changing;
    ReadAll(r.a, r.aes, r.A, dst);
    ReadAll(r.b, r.bes, r.B, dst);
    if c.i < |r.aes| { ReadAt(r.a, r.aes, r.A, dst, c.i); }
    if c.j < |r.bes| { ReadAt(r.b, r.bes, r.B, dst, c.j); }
    var src;
    if left {
      StepLeft(r.op, r.A, c.i, r.B, c.j, c.p);
      src, aElt', bElt' := aElt, aElt.next, bElt;
    } else {
      StepRight(r.op, r.A, c.i, r.B, c.j, c.p);
      src, aElt', bElt' := bElt, aElt, bElt.next;
    }
    ghost var blk := Block(src.indx, src.bits);
    dstElt', dstPrev', changed := EmitIorCopy(dst, r.a, r.b, src, dstElt, dstPrev, was, r.es, r.bs, r.cur, c.p, c.k);
    c' := Pos(c.p + [blk], c.k + 1, if left then c.i + 1 else c.i, if left then c.j else c.j + 1);
  }

  /** At the end of the run the flag, or a leftover element, says whether dst differs from what it was. */
  lemma ChangedAtEnd(r: Run, c: Pos, dstElt: Element?, dstPrev: Element?, aElt: Element?, bElt: Element?, changed: bool)
    requires Running(r, c, dstElt, dstPrev, aElt, bElt) && Changing(r.dst, r.bs, c.p, changed)
    requires aElt == null && bElt == null && Sized(r.A) && Sized(r.B)
    ensures (changed || dstElt != null) <==> Merge(r.op, r.A, r.B) != r.bs
  {
    NothingLeft(r.op, r.A, c.i, r.B, c.j);
    assert c.p + [] == c.p;
  }

  /** bitmap_ior: dst = a | b; returns true iff dst changes */
  method Ior(dst: Bitmap, a: Bitmap, b: Bitmap) returns (changed: bool)
    requires dst != a && dst != b
    requires dst.Valid() && a.Valid() && b.Valid() && dst.obstack.Valid()
    modifies dst, dst.obstack, dst.Elements()
    ensures dst.obstack.Valid() && dst.Conserves()
    ensures dst.Links() && dst.blocks == Merge(IorOp, old(a.blocks), old(b.blocks)) && Canonical(dst.blocks)
    ensures changed <==> dst.blocks != old(dst.blocks)
    ensures old(dst.elems) == [] ==> dst.CurrentOk()
    ensures old(dst.elems) != [] ==> (dst.CurrentOk() <==>
      CurrentSurvives(old(dst.blocks), old(dst.CurrentAt()), RawMerge(IorOp, old(a.blocks), 0, old(b.blocks), 0)))
  {
    hide Bitmap.Linked, Bitmap.Holding, Bitmap.Node, Bitmap.Links, Obstack.Valid, Obstack.Linked, Both, Running,
      Rewritten, CurrentSurvives, Sized, Sorted, NonZero, RawMerge, DropZero;
    ghost var r, c := Start(IorOp, dst, a, b);
    ChangeStart(dst.blocks);
    var dstElt, aElt, bElt := dst.first, a.first, b.first;
    var dstPrev: Element? := null;
    changed := false;
    while aElt != null || bElt != null
      invariant dst.obstack.Valid() && dst.Conserves() && Running(r, c, dstElt, dstPrev, aElt, bElt)
      invariant Changing(dst, r.bs, c.p, changed)
      decreases Left(r, c)
    {
      if aElt != null && bElt != null && aElt.indx == bElt.indx {
        // Matching elements: a | b.
        dstElt, dstPrev, aElt, bElt, changed, c := IorMatchStep(r, c, dst, dstElt, dstPrev, aElt, bElt, changed);
      } else {
        // Copy a single element.
        var left := bElt == null || (aElt != null && aElt.indx < bElt.indx);
        dstElt, dstPrev, aElt, bElt, changed, c := IorCopyStep(r, c, dst, dstElt, dstPrev, aElt, bElt, left, changed);
      }
    }
    ChangedAtEnd(r, c, dstElt, dstPrev, aElt, bElt, changed);
    if dstElt != null {
      changed := true;
    }
    Stop(r, c, dst, dstElt, dstPrev, aElt, bElt, if r.es == [] then 0 else old(dst.CurrentAt()));
  }


  // ---- bitmap_copy ----

  /** One turn of the loop of bitmap_copy. */
  method CopyElement(to: Bitmap, ghost from: Bitmap, fromPtr: Element, toPtr: Element?,
                     ghost es: seq<Element>, ghost bs: seq<Block>)
    returns (toElt: Element)
    requires to != from && to.obstack.Valid() && to.Links() && to.CurrentOk()
    requires Reading(from, es, bs, to) && fromPtr in es && toPtr == Nth(to.elems, |to.elems| - 1)
    modifies to, to.obstack, to.Elements()
    ensures to.obstack.Valid() && to.Conserves() && to.Links() && to.CurrentOk() && Reading(from, es, bs, to)
    ensures to.elems == old(to.elems) + [toElt]
    ensures to.blocks == old(to.blocks) + [old(Block(fromPtr.indx, fromPtr.bits))]
  {
    hide Bitmap.Linked, Bitmap.Holding, Bitmap.Node, Bitmap.Links, Obstack.Valid, Obstack.Linked, Sized, Sorted, NonZero;
    to.Apart();
    toElt := to.obstack.Allocate();
    toElt.indx := fromPtr.indx;
    toElt.bits := fromPtr.bits;
    to.Append(toElt, toPtr);
  }

  /** The call of bitmap_clear at the start of bitmap_copy. */
  method ClearFirst(to: Bitmap, ghost from: Bitmap)
    requires to.Valid() && from.Valid() && to.obstack.Valid()
    modifies to, to.obstack, to.Elements()
    ensures to.Valid() && to.obstack.Valid() && to.Conserves() && to.blocks == [] && to.elems == []
    ensures from != to ==> Reading(from, old(from.elems), old(from.blocks), to) && from.first == old(from.first)
  {
    hide Bitmap.Linked, Bitmap.Holding, Bitmap.Node, Bitmap.Links, Obstack.Valid, Obstack.Linked, Sized, Sorted, NonZero;
    from.Ends();
    if from != to { to.Separate(from); }
    Clear(to);
    to.Ends();
  }

  /** bitmap_copy. A bitmap copied to itself ends up empty. */
  method CopyTo(to: Bitmap, from: Bitmap)
    requires to.Valid() && from.Valid() && to.obstack.Valid()
    modifies to, to.obstack, to.Elements()
    ensures to.Valid() && to.obstack.Valid() && to.Conserves()
    ensures to.blocks == if from == to then [] else old(from.blocks)
  {
    hide Bitmap.Linked, Bitmap.Holding, Bitmap.Node, Bitmap.Links, Obstack.Valid, Obstack.Linked, Both, Reading,
      Sized, Sorted, NonZero;
    ghost var es, bs := from.elems, from.blocks;
    from.Ends();
    ClearFirst(to, from);
    to.Ends();
    var fromPtr := from.first;
    var toPtr: Element? := null;
    ghost var i: nat := 0;
    if from != to { ReadAll(from, es, bs, to); }
    while fromPtr != null
      invariant to.obstack.Valid() && to.Conserves() && to.Links() && to.CurrentOk()
      invariant if from == to then fromPtr == null && to.blocks == [] else
                  && Reading(from, es, bs, to) && i <= |es| == |bs| && fromPtr == Nth(es, i)
                  && to.blocks == bs[..i] && |to.elems| == i && toPtr == Nth(to.elems, i - 1)
      decreases |es| - i
    {
      ReadAt(from, es, bs, to, i);
      PrefixPlusOne(bs, i);
      var toElt := CopyElement(to, from, fromPtr, toPtr, es, bs);
      ReadAt(from, es, bs, to, i);
      toPtr := toElt;
      fromPtr, i := fromPtr.next, i + 1;
    }
    CanonicalNil();
    assert bs[..|bs|] == bs;
  }
}
