/** The read-only operations of bitmap.c on whole bitmaps. */
module BitmapQueries {
  import opened Words
  import opened Blocks
  import opened Obstacks
  import opened Bitmaps

  /** The inner loop of bitmap_equal_p. */
  method SameWords(x: Element, y: Element) returns (same: bool)
    requires |x.bits| == |y.bits| == ELEMENT_WORDS
    ensures same <==> x.bits == y.bits
  {
    var ix: nat := ELEMENT_WORDS;
    while ix > 0
      invariant ix <= ELEMENT_WORDS && forall m :: ix <= m < ELEMENT_WORDS ==> x.bits[m] == y.bits[m]
    {
      ix := ix - 1;
      if x.bits[ix] != y.bits[ix] { return false; }
    }
    return true;
  }

  /** bitmap_equal_p: element by element comparison decides equality of the sets. */
  method EqualP(a: Bitmap, b: Bitmap) returns (equal: bool)
    requires a.Valid() && b.Valid()
    ensures equal <==> Members(a.blocks) == Members(b.blocks)
  {
    hide Bitmap.Linked, Bitmap.Holding, Bitmap.Node, Bitmap.Links, Sized, Sorted, NonZero, Members;
    ghost var A, B := a.blocks, b.blocks;
    if Members(A) == Members(B) { CanonicalUnique(A, B); }
    a.Ends();
    b.Ends();
    var aElt, bElt := a.first, b.first;
    ghost var i: nat := 0;
    while aElt != null && bElt != null
      invariant i <= |a.elems| && i <= |b.elems| && aElt == Nth(a.elems, i) && bElt == Nth(b.elems, i)
      invariant A[..i] == B[..i]
      decreases |a.elems| - i
    {
      a.NodeAt(i);
      b.NodeAt(i);
      CanonicalAt(A, i);
      CanonicalAt(B, i);
      if aElt.indx != bElt.indx {
        assert A[i] != B[i];
        return false;
      }
      var same := SameWords(aElt, bElt);
      if !same {
        assert A[i] != B[i];
        return false;
      }
      PrefixPlusOne(A, i);
      PrefixPlusOne(B, i);
      aElt, bElt, i := aElt.next, bElt.next, i + 1;
    }
    assert A[..|A|] == A && B[..|B|] == B;
    return aElt == null && bElt == null;
  }

  /** The inner loop of bitmap_intersect_p (of bitmap_intersect_compl_p). */
  method CommonBit(op: BoolOp, x: Element, y: Element) returns (common: bool)
    requires |x.bits| == |y.bits| == ELEMENT_WORDS
    ensures common <==> WordsOp(op, x.bits, y.bits) != ZEROS
  {
    hide WordOp;
    var ix: nat := ELEMENT_WORDS;
    while ix > 0
      invariant ix <= ELEMENT_WORDS && forall m :: ix <= m < ELEMENT_WORDS ==> WordOp(op, x.bits[m], y.bits[m]) == ZERO
    {
      ix := ix - 1;
      if WordOp(op, x.bits[ix], y.bits[ix]) != ZERO { return true; }
    }
    return false;
  }

  /** The merged blocks from some position on contain a nonzero one. */
  ghost predicate Some(op: BoolOp, A: seq<Block>, i: nat, B: seq<Block>, j: nat)
    requires i <= |A| && j <= |B| && Sized(A) && Sized(B)
  {
    DropZero(RawMerge(op, A, i, B, j)) != []
  }

  lemma SomeStep(op: BoolOp, A: seq<Block>, i: nat, B: seq<Block>, j: nat)
    requires i < |A| && j < |B| && Canonical(A) && Canonical(B)
    ensures A[i].indx < B[j].indx && !KeepsLeft(op) ==> (Some(op, A, i, B, j) <==> Some(op, A, i + 1, B, j))
    ensures A[i].indx < B[j].indx && KeepsLeft(op) ==> Some(op, A, i, B, j)
    ensures B[j].indx < A[i].indx && !KeepsRight(op) ==> (Some(op, A, i, B, j) <==> Some(op, A, i, B, j + 1))
    ensures A[i].indx == B[j].indx ==>
      (Some(op, A, i, B, j) <==> WordsOp(op, A[i].bits, B[j].bits) != ZEROS || Some(op, A, i + 1, B, j + 1))
  {
    hide RawMerge, DropZero, WordsOp;
    NothingComputed();
    if A[i].indx < B[j].indx {
      StepLeft(op, A, i, B, j, []);
      DropZeroConcat([A[i]], RawMerge(op, A, i + 1, B, j));
      DropZeroAppend([], A[i]);
    } else if B[j].indx < A[i].indx {
      StepRight(op, A, i, B, j, []);
    } else {
      StepBoth(op, A, i, B, j, []);
      var blk := Block(A[i].indx, WordsOp(op, A[i].bits, B[j].bits));
      DropZeroConcat([blk], RawMerge(op, A, i + 1, B, j + 1));
      DropZeroAppend([], blk);
    }
  }

  lemma SomeEnd(op: BoolOp, A: seq<Block>, i: nat, B: seq<Block>, j: nat)
    requires i <= |A| && j <= |B| && Canonical(A) && Canonical(B) && !KeepsRight(op)
    ensures i == |A| ==> !Some(op, A, i, B, j)
    ensures j == |B| ==> (Some(op, A, i, B, j) <==> KeepsLeft(op) && i < |A|)
  {
    NothingComputed();
    if i == |A| || (j == |B| && !KeepsLeft(op)) {
      NothingLeft(op, A, i, B, j);
    } else if j == |B| {
      RestKept(op, A, i, B);
      DropZeroCanonical(A[i..]);
    }
  }

  lemma SomeMeaning(op: BoolOp, A: seq<Block>, B: seq<Block>)
    requires Canonical(A) && Canonical(B)
    ensures Some(op, A, 0, B, 0) <==> SetOp(op, Members(A), Members(B)) != iset{}
  {
    hide RawMerge, DropZero, Members, SetOp;
    MergeMeaning(op, A, B);
    NilMembers();
    if Members(Merge(op, A, B)) == Members([]) {
      CanonicalUnique(Merge(op, A, B), []);
    }
  }

  lemma NilMembers()
    ensures Members([]) == iset{} && Canonical([])
  {}

  /** bitmap_intersect_p */
  method IntersectP(a: Bitmap, b: Bitmap) returns (meet: bool)
    requires a.Valid() && b.Valid()
    ensures meet <==> Members(a.blocks) * Members(b.blocks) != iset{}
  {
    hide Bitmap.Linked, Bitmap.Holding, Bitmap.Node, Bitmap.Links, Sized, Sorted, NonZero, Members, Some, WordsOp;
    ghost var A, B := a.blocks, b.blocks;
    SomeMeaning(AndOp, A, B);
    a.Ends();
    b.Ends();
    var aElt, bElt := a.first, b.first;
    ghost var i: nat, j: nat := 0, 0;
    while aElt != null && bElt != null
      invariant i <= |A| == |a.elems| && j <= |B| == |b.elems| && aElt == Nth(a.elems, i) && bElt == Nth(b.elems, j)
      invariant Some(AndOp, A, i, B, j) <==> Some(AndOp, A, 0, B, 0)
      decreases |A| - i + |B| - j
    {
      a.NodeAt(i);
      b.NodeAt(j);
      CanonicalAt(A, i);
      CanonicalAt(B, j);
      SomeStep(AndOp, A, i, B, j);
      if aElt.indx < bElt.indx {
        aElt, i := aElt.next, i + 1;
      } else if bElt.indx < aElt.indx {
        bElt, j := bElt.next, j + 1;
      } else {
        var common := CommonBit(AndOp, aElt, bElt);
        if common { return true; }
        aElt, i := aElt.next, i + 1;
        bElt, j := bElt.next, j + 1;
      }
    }
    SomeEnd(AndOp, A, i, B, j);
    return false;
  }

  /** bitmap_intersect_compl_p */
  method IntersectComplP(a: Bitmap, b: Bitmap) returns (differ: bool)
    requires a.Valid() && b.Valid()
    ensures differ <==> Members(a.blocks) - Members(b.blocks) != iset{}
  {
    hide Bitmap.Linked, Bitmap.Holding, Bitmap.Node, Bitmap.Links, Sized, Sorted, NonZero, Members, Some, WordsOp;
    ghost var A, B := a.blocks, b.blocks;
    SomeMeaning(AndComplOp, A, B);
    a.Ends();
    b.Ends();
    var aElt, bElt := a.first, b.first;
    ghost var i: nat, j: nat := 0, 0;
    while aElt != null && bElt != null
      invariant i <= |A| == |a.elems| && j <= |B| == |b.elems| && aElt == Nth(a.elems, i) && bElt == Nth(b.elems, j)
      invariant Some(AndComplOp, A, i, B, j) <==> Some(AndComplOp, A, 0, B, 0)
      decreases |A| - i + |B| - j
    {
      a.NodeAt(i);
      b.NodeAt(j);
      CanonicalAt(A, i);
      CanonicalAt(B, j);
      SomeStep(AndComplOp, A, i, B, j);
      if aElt.indx < bElt.indx {
        return true;
      } else if bElt.indx < aElt.indx {
        bElt, j := bElt.next, j + 1;
      } else {
        var common := CommonBit(AndComplOp, aElt, bElt);
        if common { return true; }
        aElt, i := aElt.next, i + 1;
        bElt, j := bElt.next, j + 1;
      }
    }
    SomeEnd(AndComplOp, A, i, B, j);
    return aElt != null;
  }

  // ---- bitmap_first_set_bit ----

  /** Number of trailing zeros found by halving: if the low n bits are all zero, drop them. */
  method Narrow(word: Word, bitNo: nat, n: nat, ghost w0: Word) returns (word': Word, bitNo': nat)
    requires word == Shr(w0, bitNo) && 0 < n < WORD_BITS && word != ZERO
    requires forall i :: 0 <= i < bitNo ==> !Bit(w0, i)
    requires exists i :: 0 <= i < 2 * n && Bit(word, i)
    ensures word' == Shr(w0, bitNo') && word' != ZERO
    ensures forall i :: 0 <= i < bitNo' ==> !Bit(w0, i)
    ensures exists i :: 0 <= i < n && Bit(word', i)
    ensures bitNo <= bitNo' <= bitNo + n
  {
    hide And, Bit, Below;
    LowBits(word, n);
    word', bitNo' := word, bitNo;
    if And(word, Below(n)) == ZERO {
      ghost var i :| 0 <= i < 2 * n && Bit(word, i);
      word' := Shr(word, n);
      bitNo' := bitNo + n;
      ShrAdd(w0, bitNo, n);
      BitShr(word, n, i - n);
      forall m | 0 <= m < bitNo' ensures !Bit(w0, m) {
        if m >= bitNo { BitShr(w0, bitNo, m - bitNo); }
      }
      if word' == ZERO { BitZero(i - n); }
    }
  }

  /** word & ((1 << n) - 1) is zero iff no bit below n is set. */
  lemma LowBits(word: Word, n: nat)
    requires n < WORD_BITS
    ensures And(word, Below(n)) == ZERO <==> forall i :: 0 <= i < n ==> !Bit(word, i)
  {
    hide And, Bit, Below;
    forall i | 0 <= i < WORD_BITS ensures Bit(And(word, Below(n)), i) <==> Bit(word, i) && i < n {
      BitAnd(word, Below(n), i);
      BitBelow(n, i);
    }
    forall i ensures 0 <= i < WORD_BITS ==> !Bit(ZERO, i) {
      if 0 <= i { BitZero(i); }
    }
    if And(word, Below(n)) != ZERO {
      NonZeroHasBit(And(word, Below(n)));
    }
  }

  /** The binary search for the first set bit of a word. */
  method TrailingZeros(w: Word) returns (bitNo: nat)
    requires w != ZERO
    ensures bitNo < WORD_BITS && Bit(w, bitNo) && forall i :: 0 <= i < bitNo ==> !Bit(w, i)
  {
    hide Bit, Odd;
    NonZeroHasBit(w);
    var word := w;
    bitNo := 0;
    assert word == Shr(w, 0);
    word, bitNo := Narrow(word, bitNo, 32, w);
    word, bitNo := Narrow(word, bitNo, 16, w);
    word, bitNo := Narrow(word, bitNo, 8, w);
    word, bitNo := Narrow(word, bitNo, 4, w);
    word, bitNo := Narrow(word, bitNo, 2, w);
    word, bitNo := Narrow(word, bitNo, 1, w);
    BitShr(w, bitNo, 0);
  }

  /** bitmap_first_set_bit: the least member. */
  method FirstSetBit(a: Bitmap) returns (bitNo: nat)
    requires a.Valid() && a.first != null
    ensures bitNo in Members(a.blocks)
    ensures forall x: nat :: x in Members(a.blocks) ==> bitNo <= x
  {
    hide Bitmap.Linked, Bitmap.Holding, Bitmap.Node, Bitmap.Links, Bit;
    a.Ends();
    a.NodeAt(0);
    CanonicalAt(a.blocks, 0);
    var elt := a.first;
    bitNo := elt.indx * ELEMENT_BITS;
    var ix := 0;
    assert elt.bits[0] != ZERO || elt.bits[1] != ZERO by { assert elt.bits == [elt.bits[0], elt.bits[1]]; }
    while elt.bits[ix] == ZERO
      invariant 0 <= ix < ELEMENT_WORDS && forall m :: 0 <= m < ix ==> elt.bits[m] == ZERO
      decreases ELEMENT_WORDS - ix
    {
      ix := ix + 1;
    }
    var word := elt.bits[ix];
    bitNo := bitNo + ix * WORD_BITS;
    var tz := TrailingZeros(word);
    bitNo := bitNo + tz;
    LeastNumber(a.blocks, ix, tz);
  }

  lemma LeastNumber(bs: seq<Block>, w: nat, i: nat)
    requires Canonical(bs) && |bs| > 0 && w < ELEMENT_WORDS && i < WORD_BITS
    requires Bit(bs[0].bits[w], i) && forall m :: 0 <= m < i ==> !Bit(bs[0].bits[w], m)
    requires forall m :: 0 <= m < w ==> bs[0].bits[m] == ZERO
    ensures var x := Number(bs[0].indx, w, i);
      x in Members(bs) && forall y: nat :: y in Members(bs) ==> x <= y
  {
    hide Bit;
    var x := Number(bs[0].indx, w, i);
    NumberParts(bs[0].indx, w, i);
    InCanonical(bs, 0, x);
    forall y: nat | y in Members(bs) ensures x <= y {
      assert In(bs, y);
      var k :| 0 <= k < |bs| && InBlock(bs[k], y);
      NumberOf(y);
      if k == 0 {
        BitZero(y % WORD_BITS);
      } else {
        assert bs[0].indx < bs[k].indx;
      }
    }
  }
}
