/** The two-operand operations of bitmap.c: the list of a is changed in place. */
module BitmapInto {
  import opened Words
  import opened Blocks
  import opened Obstacks
  import opened Bitmaps
  import opened BitmapBits
  import opened BitmapOps

  /** The fixed data of one run: what the operands hold on entry. */
  datatype Fold = Fold(op: BoolOp, a: Bitmap, b: Bitmap, A: seq<Block>, bes: seq<Element>, B: seq<Block>)

  ghost function ToDo(r: Fold, c: MergePos): nat {
    if c.i <= |r.A| && c.j <= |r.bes| then |r.A| - c.i + |r.bes| - c.j else 0
  }

  /** The loop invariant of all two-operand operations. */
  ghost predicate Folding(r: Fold, c: MergePos, aElt: Element?, aPrev: Element?, bElt: Element?)
    reads r.a, r.a.elems, r.b, r.b.elems, r.a.obstack`free
  {
    && r.a != r.b && Reading(r.b, r.bes, r.B, r.a)
    && r.a.Links() && r.a.CurrentOk() && |r.a.blocks| == |r.a.elems|
    && c.j <= |r.bes| && Merged(r.op, r.a.blocks, c, r.A, r.B)
    && aElt == Nth(r.a.elems, c.k) && aPrev == Nth(r.a.elems, (c.k as int) - 1) && bElt == Nth(r.bes, c.j)
  }

  lemma BeginFold(op: BoolOp, a: Bitmap, b: Bitmap) returns (r: Fold, c: MergePos)
    requires a != b && a.Valid() && b.Valid() && a.obstack.Valid()
    ensures r == Fold(op, a, b, a.blocks, b.elems, b.blocks) && c == MergePos([], 0, 0, 0)
    ensures Folding(r, c, a.first, null, b.first) && Unchanged(c, r.A)
  {
    hide Merged;
    NothingComputed();
    r := Fold(op, a, b, a.blocks, b.elems, b.blocks);
    c := MergePos([], 0, 0, 0);
    a.Separate(b);
    MergedStart(op, a.blocks, b.blocks);
  }

  /** The elements at the two positions. */
  lemma FoldAt(r: Fold, c: MergePos, aElt: Element?, aPrev: Element?, bElt: Element?)
    requires Folding(r, c, aElt, aPrev, bElt)
    ensures c.i <= |r.A| && c.j <= |r.B| == |r.bes| && c.k <= |r.a.elems| == |r.a.blocks| == c.k + |r.A| - c.i
    ensures Sized(r.a.blocks)
    ensures aElt != null ==>
      && c.i < |r.A| && r.a.blocks[c.k] == r.A[c.i] == Block(aElt.indx, aElt.bits) && |aElt.bits| == ELEMENT_WORDS
      && aElt.next == Nth(r.a.elems, c.k + 1) && aElt.prev == aPrev && r.A[c.i].bits != ZEROS
    ensures aElt == null ==> c.i == |r.A|
    ensures bElt != null ==>
      && c.j < |r.B| && r.B[c.j] == Block(bElt.indx, bElt.bits) && |bElt.bits| == ELEMENT_WORDS && bElt.bits != ZEROS
      && bElt.next == Nth(r.bes, c.j + 1) && bElt !in r.a.Elements() && bElt in r.b.elems
    ensures bElt == null ==> c.j == |r.B|
  {
    MergedAt(r.op, r.a.blocks, c, r.A, r.B);
    if aElt != null {
      r.a.NodeAt(c.k);
      CanonicalAt(r.A, c.i);
    }
    if bElt != null { ReadAt(r.b, r.bes, r.B, r.a, c.j); }
  }

  /** An element of a that the operation does not keep is freed. */
  method FreeStep(ghost r: Fold, ghost c: MergePos, a: Bitmap, aElt: Element, ghost aPrev: Element?, ghost bElt: Element?)
    returns (aElt': Element?, ghost c': MergePos)
    requires r.a == a && a.obstack.Valid() && Folding(r, c, aElt, aPrev, bElt)
    requires !KeepsLeft(r.op) && (bElt == null || aElt.indx < bElt.indx)
    modifies a, a.obstack, a.Elements()
    ensures a.obstack.Valid() && a.Conserves() && Folding(r, c', aElt', aPrev, bElt)
    ensures ToDo(r, c') < ToDo(r, c) && c' == c.(i := c.i + 1)
  {
    hide Bitmap.Linked, Bitmap.Holding, Bitmap.Node, Bitmap.Links, Obstack.Valid, Obstack.Linked, Merged,
      Sized, Sorted, NonZero, WordsOp, With, Without, KeepsLeft, KeepsRight, Unchanged;
    FoldAt(r, c, aElt, aPrev, bElt);
    MergedFree(r.op, a.blocks, c, r.A, r.B);
    aElt' := aElt.next;
    a.ElementFree(aElt, c.k);
    WithoutNth(old(a.elems), c.k);
    WithoutLen(old(a.blocks), c.k);
    c' := c.(i := c.i + 1);
  }

  lemma WithoutNth(es: seq<Element>, k: nat)
    requires k < |es|
    ensures |es[..k] + es[k + 1..]| == |es| - 1
    ensures Nth(es[..k] + es[k + 1..], k) == Nth(es, k + 1)
    ensures Nth(es[..k] + es[k + 1..], (k as int) - 1) == Nth(es, (k as int) - 1)
  {}

  /** An element of a that the operation keeps is passed over. */
  lemma PassStep(r: Fold, c: MergePos, aElt: Element, aPrev: Element?, bElt: Element?) returns (c': MergePos)
    requires Folding(r, c, aElt, aPrev, bElt)
    requires KeepsLeft(r.op) && (bElt == null || aElt.indx < bElt.indx)
    ensures Folding(r, c', aElt.next, aElt, bElt) && ToDo(r, c') < ToDo(r, c)
    ensures c.i < |r.A| && c'.i == c.i + 1 && c'.p == c.p + [r.A[c.i]] && c'.k == c.k + 1
    ensures Unchanged(c', r.A) <==> Unchanged(c, r.A)
  {
    hide Bitmap.Linked, Bitmap.Holding, Bitmap.Node, Bitmap.Links, Reading, Merged, Sized, Sorted, NonZero, KeepsLeft;
    FoldAt(r, c, aElt, aPrev, bElt);
    MergedPass(r.op, r.a.blocks, c, r.A, r.B);
    UnchangedSnoc(c.p, r.A[c.i], r.A, c.i);
    c' := MergePos(c.p + [r.A[c.i]], c.k + 1, c.i + 1, c.j);
  }

  /** An element of b that the operation does not keep is passed over. */
  lemma SkipStep(r: Fold, c: MergePos, aElt: Element?, aPrev: Element?, bElt: Element) returns (c': MergePos)
    requires Folding(r, c, aElt, aPrev, bElt)
    requires !KeepsRight(r.op) && (aElt == null || bElt.indx < aElt.indx)
    ensures Folding(r, c', aElt, aPrev, bElt.next) && ToDo(r, c') < ToDo(r, c)
    ensures c' == c.(j := c.j + 1) && c.i <= |r.A| && (Unchanged(c', r.A) <==> Unchanged(c, r.A))
  {
    hide Bitmap.Linked, Bitmap.Holding, Bitmap.Node, Bitmap.Links, Reading, Merged, Sized, Sorted, NonZero, KeepsRight;
    FoldAt(r, c, aElt, aPrev, bElt);
    MergedSkip(r.op, r.a.blocks, c, r.A, r.B);
    c' := c.(j := c.j + 1);
  }

  /** A copy of an element of b is inserted. */
  method InsertStep(ghost r: Fold, ghost c: MergePos, a: Bitmap, ghost aElt: Element?, aPrev: Element?, bElt: Element)
    returns (dst: Element, ghost c': MergePos)
    requires r.a == a && a.obstack.Valid() && Folding(r, c, aElt, aPrev, bElt)
    requires KeepsRight(r.op) && (aElt == null || bElt.indx < aElt.indx)
    modifies a, a.obstack, a.Elements()
    ensures a.obstack.Valid() && a.Conserves() && Folding(r, c', aElt, dst, bElt.next)
    ensures ToDo(r, c') < ToDo(r, c)
    ensures c'.i == c.i && c'.k == c.k + 1
  {
    hide Bitmap.Linked, Bitmap.Holding, Bitmap.Node, Bitmap.Links, Obstack.Valid, Obstack.Linked, Merged,
      Sized, Sorted, NonZero, WordsOp, With, Without, KeepsLeft, KeepsRight, Unchanged;
    FoldAt(r, c, aElt, aPrev, bElt);
    MergedInsert(r.op, a.blocks, c, r.A, r.B);
    a.Apart();
    dst := a.InsertAfter(aPrev, bElt.indx, c.k);
    a.Apart();
    a.WriteBits(dst, c.k, bElt.bits);
    WithNth(old(a.elems), c.k, dst);
    WithAt(old(a.blocks), c.k, Block(bElt.indx, ZEROS), Block(bElt.indx, bElt.bits));
    c' := MergePos(c.p + [r.B[c.j]], c.k + 1, c.i, c.j + 1);
  }

  /** Once an element has been inserted, a has changed. */
  lemma Longer(r: Fold, c: MergePos, aElt: Element?, aPrev: Element?, bElt: Element?)
    requires Folding(r, c, aElt, aPrev, bElt) && c.i < c.k
    ensures c.i <= |r.A| && !Unchanged(c, r.A)
  {
    KeptCount(r.op, r.a.blocks, c, r.A, r.B);
    NotUnchanged(c, r.A);
  }

  lemma WithNth(es: seq<Element>, k: nat, e: Element)
    requires k <= |es|
    ensures |es[..k] + [e] + es[k..]| == |es| + 1 && (es[..k] + [e] + es[k..])[k] == e
    ensures Nth(es[..k] + [e] + es[k..], k + 1) == Nth(es, k)
  {}

  /** The words of a matching element of a are overwritten by op of the two, each operation with its own loop.
      cleared says which bits bitmap_and_compl_into has cleared. */
  method StoreMatch(op: BoolOp, a: Bitmap, aElt: Element, ghost k: nat, bElt: Element) returns (ior: Word, cleared: Word)
    requires a.Links() && k < |a.elems| && a.elems[k] == aElt
    requires |bElt.bits| == |aElt.bits| == ELEMENT_WORDS && bElt != aElt
    modifies a`blocks, aElt`bits
    ensures a.Links() && aElt.bits == WordsOp(op, old(aElt.bits), bElt.bits)
    ensures a.blocks == old(a.blocks)[k := Block(aElt.indx, aElt.bits)]
    ensures ior == ZERO <==> aElt.bits == ZEROS
    ensures op == AndComplOp ==> (cleared == ZERO <==> aElt.bits == old(aElt.bits))
  {
    hide Bitmap.Linked, Bitmap.Holding, Bitmap.Node, Bitmap.Links, WordsOp;
    cleared := ZERO;
    if op == AndComplOp {
      cleared, ior := a.StoreClearing(aElt, k, bElt);
    } else if op == ComplAndOp {
      ior := a.StoreComplAnd(aElt, k, bElt);
    } else {
      ior := a.StoreOp(op, aElt, k, aElt, bElt);
    }
  }

  /** Matching elements: the element of a becomes op of the two, and is freed if that is all zero. */
  method FoldMatch(ghost r: Fold, ghost c: MergePos, op: BoolOp, a: Bitmap, aElt: Element, aPrev: Element?, bElt: Element)
    returns (aElt': Element?, aPrev': Element?, cleared: Word, ghost c': MergePos)
    requires r.a == a && r.op == op && a.obstack.Valid() && Folding(r, c, aElt, aPrev, bElt)
    requires aElt.indx == bElt.indx
    modifies a, a.obstack, a.Elements()
    ensures a.obstack.Valid() && a.Conserves() && Folding(r, c', aElt', aPrev', bElt.next)
    ensures ToDo(r, c') < ToDo(r, c) && c.i < |r.A| && c.j < |r.B| && c'.i == c.i + 1
    ensures op == AndComplOp && c.k <= c.i ==>
      c'.k <= c'.i && (Unchanged(c', r.A) <==> Unchanged(c, r.A) && cleared == ZERO)
  {
    hide Bitmap.Linked, Bitmap.Holding, Bitmap.Node, Bitmap.Links, Obstack.Valid, Obstack.Linked, Merged,
      Sized, Sorted, NonZero, WordsOp, With, Without, KeepsLeft, KeepsRight, Unchanged;
    FoldAt(r, c, aElt, aPrev, bElt);
    MergedMatch(op, a.blocks, c, r.A, r.B);
    ghost var blk := Block(aElt.indx, WordsOp(op, aElt.bits, bElt.bits));
    KeptCount(r.op, a.blocks, c, r.A, r.B);
    if op == AndComplOp && c.k <= c.i { ClearedStep(c, r.A, r.B[c.j]); }
    a.Apart();
    var next, ior := aElt.next, ZERO;
    ior, cleared := StoreMatch(op, a, aElt, c.k, bElt);
    aElt', aPrev' := next, aPrev;
    if ior == ZERO {
      WithoutReplaced(old(a.blocks), c.k, blk);
      a.ElementFree(aElt, c.k);
      WithoutNth(old(a.elems), c.k);
      WithoutLen(old(a.blocks), c.k);
      c' := MergePos(c.p + [blk], c.k, c.i + 1, c.j + 1);
    } else {
      aPrev' := aElt;
      c' := MergePos(c.p + [blk], c.k + 1, c.i + 1, c.j + 1);
    }
  }

  /** The case of matching elements in bitmap_ior_into. */
  method FoldIor(ghost r: Fold, ghost c: MergePos, a: Bitmap, aElt: Element, ghost aPrev: Element?, bElt: Element, was: bool)
    returns (changed: bool, ghost c': MergePos)
    requires r.a == a && r.op == IorOp && a.obstack.Valid() && Folding(r, c, aElt, aPrev, bElt)
    requires aElt.indx == bElt.indx
    modifies a, a.obstack, a.Elements()
    ensures a.obstack.Valid() && a.Conserves() && Folding(r, c', aElt.next, aElt, bElt.next)
    ensures ToDo(r, c') < ToDo(r, c) && c.i < |r.A| && c.j < |r.B| && c'.i == c.i + 1 && c'.k == c.k + 1
    ensures (!was <==> Unchanged(c, r.A)) ==> (!changed <==> Unchanged(c', r.A))
  {
    hide Bitmap.Linked, Bitmap.Holding, Bitmap.Node, Bitmap.Links, Obstack.Valid, Obstack.Linked, Merged,
      Sized, Sorted, NonZero, WordsOp, With, Without, KeepsLeft, KeepsRight, Unchanged;
    FoldAt(r, c, aElt, aPrev, bElt);
    MergedMatch(IorOp, a.blocks, c, r.A, r.B);
    OrNonZero(aElt.bits, bElt.bits);
    OredStep(c, r.A, r.B[c.j]);
    ghost var blk := Block(aElt.indx, WordsOp(IorOp, aElt.bits, bElt.bits));
    a.Apart();
    changed := was;
    if changed {
      var ior := a.StoreOp(IorOp, aElt, c.k, aElt, bElt);
    } else {
      changed := a.StoreIor(aElt, c.k, aElt, bElt);
    }
    c' := MergePos(c.p + [blk], c.k + 1, c.i + 1, c.j + 1);
  }

  /** The end of a run after which the rest of a stays. */
  lemma EndFold(r: Fold, c: MergePos, aElt: Element?, aPrev: Element?, bElt: Element?)
    requires Folding(r, c, aElt, aPrev, bElt)
    requires bElt == null || (aElt == null && !KeepsRight(r.op))
    requires aElt == null || KeepsLeft(r.op)
    ensures r.a.Valid() && r.a.blocks == Merge(r.op, r.A, r.B)
    ensures r.a.blocks == r.A <==> c.i <= |r.A| && Unchanged(c, r.A)
  {
    hide Bitmap.Linked, Bitmap.Holding, Bitmap.Node, Bitmap.Links, RawMerge, DropZero, Sized, Sorted, NonZero,
      Unchanged, KeepsLeft, KeepsRight;
    FoldAt(r, c, aElt, aPrev, bElt);
    MergedEnd(r.op, r.a.blocks, c, r.A, r.B);
    MergeMeaning(r.op, r.A, r.B);
    UnchangedEnd(r.op, r.a.blocks, c, r.A, r.B);
  }

  lemma PrevIs(r: Fold, c: MergePos, aElt: Element, aPrev: Element?, bElt: Element?)
    requires Folding(r, c, aElt, aPrev, bElt)
    ensures aElt.prev == aPrev
  {
    FoldAt(r, c, aElt, aPrev, bElt);
  }

  /** `bitmap_elt_clear_from (a, a_elt)` at the end of bitmap_and_into: the rest of a goes. */
  method ClearRest(ghost r: Fold, ghost c: MergePos, a: Bitmap, aElt: Element?, ghost aPrev: Element?, ghost bElt: Element?)
    requires r.a == a && a.obstack.Valid() && Folding(r, c, aElt, aPrev, bElt) && r.op == AndOp
    requires aElt == null || bElt == null
    modifies a, a.obstack, a.Elements()
    ensures a.Valid() && a.obstack.Valid() && a.Conserves() && a.blocks == Merge(AndOp, r.A, r.B)
  {
    hide Bitmap.Linked, Bitmap.Holding, Bitmap.Node, Bitmap.Links, Obstack.Valid, Obstack.Linked, Reading, Merged,
      Sized, Sorted, NonZero;
    FoldAt(r, c, aElt, aPrev, bElt);
    MergedEnd(AndOp, a.blocks, c, r.A, r.B);
    MergedOrder(AndOp, a.blocks, c, r.A, r.B);
    MergedOperands(AndOp, a.blocks, c, r.A, r.B);
    MergeMeaning(AndOp, r.A, r.B);
    assert a.blocks[..|a.blocks|] == a.blocks;
    a.ClearTail(aElt, c.k);
  }

  /** bitmap_and_into, for a != b: a &= b */
  method AndInto(a: Bitmap, b: Bitmap)
    requires a != b && a.Valid() && b.Valid() && a.obstack.Valid()
    modifies a, a.obstack, a.Elements()
    ensures a.Valid() && a.obstack.Valid() && a.Conserves()
    ensures a.blocks == Merge(AndOp, old(a.blocks), old(b.blocks))
  {
    hide Bitmap.Linked, Bitmap.Holding, Bitmap.Node, Bitmap.Links, Obstack.Valid, Obstack.Linked, Both, Folding, Merged,
      Sized, Sorted, NonZero, WordsOp, Unchanged, RawMerge, DropZero;
    ghost var r, c := BeginFold(AndOp, a, b);
    var aElt, bElt := a.first, b.first;
    var aPrev: Element? := null;
    while aElt != null && bElt != null
      invariant a.obstack.Valid() && a.Conserves() && Folding(r, c, aElt, aPrev, bElt)
      decreases ToDo(r, c)
    {
      if aElt.indx < bElt.indx {
        aElt, c := FreeStep(r, c, a, aElt, aPrev, bElt);
      } else if bElt.indx < aElt.indx {
        c := SkipStep(r, c, aElt, aPrev, bElt);
        bElt := bElt.next;
      } else {
        // Matching elements: a &= b.
        var cleared;
        aElt, aPrev, cleared, c := FoldMatch(r, c, AndOp, a, aElt, aPrev, bElt);
        bElt := bElt.next;
      }
    }
    ClearRest(r, c, a, aElt, aPrev, bElt);
  }

  /** bitmap_and_compl_into, for a != b: a &= ~b; returns true iff a changes */
  method AndComplInto(a: Bitmap, b: Bitmap) returns (changed: bool)
    requires a != b && a.Valid() && b.Valid() && a.obstack.Valid()
    modifies a, a.obstack, a.Elements()
    ensures a.Valid() && a.obstack.Valid() && a.Conserves()
    ensures a.blocks == Merge(AndComplOp, old(a.blocks), old(b.blocks))
    ensures changed <==> a.blocks != old(a.blocks)
  {
    hide Bitmap.Linked, Bitmap.Holding, Bitmap.Node, Bitmap.Links, Obstack.Valid, Obstack.Linked, Both, Folding, Merged,
      Sized, Sorted, NonZero, WordsOp, Unchanged, RawMerge, DropZero;
    ghost var r, c := BeginFold(AndComplOp, a, b);
    var aElt, bElt := a.first, b.first;
    var aPrev: Element? := null;
    var flag := ZERO;
    while aElt != null && bElt != null
      invariant a.obstack.Valid() && a.Conserves() && Folding(r, c, aElt, aPrev, bElt)
      invariant c.i <= |r.A| && (flag == ZERO <==> Unchanged(c, r.A)) && c.k <= c.i
      decreases ToDo(r, c)
    {
      if aElt.indx < bElt.indx {
        c := PassStep(r, c, aElt, aPrev, bElt);
        aPrev, aElt := aElt, aElt.next;
      } else if bElt.indx < aElt.indx {
        c := SkipStep(r, c, aElt, aPrev, bElt);
        bElt := bElt.next;
      } else {
        // Matching elements: a &= ~b.
        var cleared;
        aElt, aPrev, cleared, c := FoldMatch(r, c, AndComplOp, a, aElt, aPrev, bElt);
        bElt := bElt.next;
        OrZero(flag, cleared);
        flag := Or(flag, cleared);
      }
    }
    EndFold(r, c, aElt, aPrev, bElt);
    changed := flag != ZERO;
  }

  /** bitmap_compl_and_into, for nonempty a and b: a = ~a & b */
  method ComplAndInto(a: Bitmap, b: Bitmap)
    requires a != b && a.Valid() && b.Valid() && a.obstack.Valid()
    modifies a, a.obstack, a.Elements()
    ensures a.Valid() && a.obstack.Valid() && a.Conserves()
    ensures a.blocks == Merge(ComplAndOp, old(a.blocks), old(b.blocks))
  {
    hide Bitmap.Linked, Bitmap.Holding, Bitmap.Node, Bitmap.Links, Obstack.Valid, Obstack.Linked, Both, Folding, Merged,
      Sized, Sorted, NonZero, WordsOp, Unchanged, RawMerge, DropZero;
    ghost var r, c := BeginFold(ComplAndOp, a, b);
    var aElt, bElt := a.first, b.first;
    var aPrev: Element? := null;
    while aElt != null || bElt != null
      invariant a.obstack.Valid() && a.Conserves() && Folding(r, c, aElt, aPrev, bElt)
      decreases ToDo(r, c)
    {
      if bElt == null || (aElt != null && aElt.indx < bElt.indx) {
        // a is before b: remove it.
        PrevIs(r, c, aElt, aPrev, bElt);
        aPrev := aElt.prev;
        aElt, c := FreeStep(r, c, a, aElt, aPrev, bElt);
      } else if aElt == null || bElt.indx < aElt.indx {
        // b is before a: copy it.
        aPrev, c := InsertStep(r, c, a, aElt, aPrev, bElt);
        bElt := bElt.next;
      } else {
        // Matching elements: a = ~a & b.
        var cleared;
        aElt, aPrev, cleared, c := FoldMatch(r, c, ComplAndOp, a, aElt, aPrev, bElt);
        bElt := bElt.next;
      }
    }
    EndFold(r, c, aElt, aPrev, bElt);
  }

  /** bitmap_xor_into, for a != b: a ^= b */
  method XorInto(a: Bitmap, b: Bitmap)
    requires a != b && a.Valid() && b.Valid() && a.obstack.Valid()
    modifies a, a.obstack, a.Elements()
    ensures a.Valid() && a.obstack.Valid() && a.Conserves()
    ensures a.blocks == Merge(XorOp, old(a.blocks), old(b.blocks))
  {
    hide Bitmap.Linked, Bitmap.Holding, Bitmap.Node, Bitmap.Links, Obstack.Valid, Obstack.Linked, Both, Folding, Merged,
      Sized, Sorted, NonZero, WordsOp, Unchanged, RawMerge, DropZero;
    ghost var r, c := BeginFold(XorOp, a, b);
    var aElt, bElt := a.first, b.first;
    var aPrev: Element? := null;
    while bElt != null
      invariant a.obstack.Valid() && a.Conserves() && Folding(r, c, aElt, aPrev, bElt)
      decreases ToDo(r, c)
    {
      if aElt == null || bElt.indx < aElt.indx {
        // Copy bElt.
        aPrev, c := InsertStep(r, c, a, aElt, aPrev, bElt);
        bElt := bElt.next;
      } else if aElt.indx < bElt.indx {
        c := PassStep(r, c, aElt, aPrev, bElt);
        aPrev, aElt := aElt, aElt.next;
      } else {
        // Matching elements: a ^= b.
        var cleared;
        aElt, aPrev, cleared, c := FoldMatch(r, c, XorOp, a, aElt, aPrev, bElt);
        bElt := bElt.next;
      }
    }
    EndFold(r, c, aElt, aPrev, bElt);
    if a.current != null {
      a.indx := a.current.indx;
    }
  }

  /** bitmap_ior_into, for a != b: a |= b; returns true iff a changes */
  method IorInto(a: Bitmap, b: Bitmap) returns (changed: bool)
    requires a != b && a.Valid() && b.Valid() && a.obstack.Valid()
    modifies a, a.obstack, a.Elements()
    ensures a.Valid() && a.obstack.Valid() && a.Conserves()
    ensures a.blocks == Merge(IorOp, old(a.blocks), old(b.blocks))
    ensures changed <==> a.blocks != old(a.blocks)
  {
    hide Bitmap.Linked, Bitmap.Holding, Bitmap.Node, Bitmap.Links, Obstack.Valid, Obstack.Linked, Both, Folding, Merged,
      Sized, Sorted, NonZero, WordsOp, Unchanged, RawMerge, DropZero;
    ghost var r, c := BeginFold(IorOp, a, b);
    var aElt, bElt := a.first, b.first;
    var aPrev: Element? := null;
    changed := false;
    while bElt != null
      invariant a.obstack.Valid() && a.Conserves() && Folding(r, c, aElt, aPrev, bElt)
      invariant c.i <= |r.A| && (!changed <==> Unchanged(c, r.A)) && c.i <= c.k
      decreases ToDo(r, c)
    {
      if aElt == null || bElt.indx < aElt.indx {
        // Copy bElt.
        aPrev, c := InsertStep(r, c, a, aElt, aPrev, bElt);
        bElt := bElt.next;
        Longer(r, c, aElt, aPrev, bElt);
        changed := true;
      } else if aElt.indx < bElt.indx {
        c := PassStep(r, c, aElt, aPrev, bElt);
        aPrev, aElt := aElt, aElt.next;
      } else {
        // Matching elements: a |= b.
        changed, c := FoldIor(r, c, a, aElt, aPrev, bElt, changed);
        aPrev, aElt, bElt := aElt, aElt.next, bElt.next;
      }
    }
    EndFold(r, c, aElt, aPrev, bElt);
    if a.current != null {
      a.indx := a.current.indx;
    }
  }
}
