/** The iterators of bitmap.h, over one bitmap, an intersection and a difference. */
module BitmapIterators {
  import opened Words
  import opened Blocks
  import opened Obstacks
  import opened Bitmaps

  /** What an iterator has yet to visit of its current element and the later ones, from word w of the element on. */
  ghost predicate FromWord(cur: Block, later: seq<Block>, w: nat, x: nat) {
    In(later, x) || (InBlock(cur, x) && w <= x / WORD_BITS % ELEMENT_WORDS)
  }

  /** The same in the middle of a word, of which `bits` is left, its low bit standing for bitNo. */
  ghost predicate Pending(cur: Block, later: seq<Block>, wordNo: nat, bits: Word, bitNo: nat, x: nat) {
    || FromWord(cur, later, wordNo + 1, x)
    || (bits != ZERO && InBlock(cur, x) && x / WORD_BITS % ELEMENT_WORDS == wordNo && bitNo <= x)
  }

  /** What is left from word w of the current block on. */
  ghost function LeftFrom(cur: Block, later: seq<Block>, w: nat): iset<nat> {
    iset x: nat | FromWord(cur, later, w, x)
  }

  /** What is left in the middle of a word. */
  ghost function Left(cur: Block, later: seq<Block>, wordNo: nat, bits: Word, bitNo: nat): iset<nat> {
    iset x: nat | Pending(cur, later, wordNo, bits, bitNo, x)
  }

  /** What there is in the current block and the later ones from a start bit on. */
  ghost function FromBit(cur: Block, later: seq<Block>, start: nat): iset<nat> {
    iset x: nat | start <= x && (InBlock(cur, x) || In(later, x))
  }

  /** The numbers of a set from a start bit on. */
  ghost function From(s: iset<nat>, start: nat): iset<nat> {
    iset x | x in s && start <= x
  }

  /** Where the iteration starts in an element that may be beyond the start bit. */
  function StartBit(indx: nat, startBit: nat): nat {
    if indx != startBit / ELEMENT_BITS then indx * ELEMENT_BITS else startBit
  }

  lemma StartPlace(indx: nat, startBit: nat)
    ensures var start := StartBit(indx, startBit);
            var w := start / WORD_BITS % ELEMENT_WORDS;
            var i := start % WORD_BITS;
      w < ELEMENT_WORDS && i < WORD_BITS && start == Number(indx, w, i)
  {
    NumberOf(StartBit(indx, startBit));
  }

  /** A current block and later ones, in order. */
  predicate Queue(cur: Block, later: seq<Block>) {
    |cur.bits| == ELEMENT_WORDS && Sized(later) && Sorted(later) && AtLeast(later, cur.indx + 1)
  }

  /** `bits` is the rest of a word of the current block, and bit_no its place; when nothing is left of the word
      bit_no is not at the start of it, so that rounding up leads to the next one. */
  predicate Placed(cur: Block, wordNo: nat, bits: Word, bitNo: nat) {
    && |cur.bits| == ELEMENT_WORDS && wordNo < ELEMENT_WORDS
    && var base := Number(cur.indx, wordNo, 0);
      && (bits != ZERO ==> base <= bitNo < base + WORD_BITS && bits == Shr(cur.bits[wordNo], bitNo - base))
      && (bits == ZERO && wordNo + 1 < ELEMENT_WORDS ==> base < bitNo <= base + WORD_BITS)
  }

  // ---- the steps of the iteration ----

  /** When the low bit is set, bit_no is the least number pending. */
  lemma FoundBit(cur: Block, later: seq<Block>, wordNo: nat, bits: Word, bitNo: nat)
    requires Queue(cur, later) && Placed(cur, wordNo, bits, bitNo) && Odd(bits)
    ensures bitNo in Left(cur, later, wordNo, bits, bitNo)
    ensures forall x: nat :: x in Left(cur, later, wordNo, bits, bitNo) ==> bitNo <= x
  {
    SmallWords(0);
    hide Odd, Bit, Shr;
    var i := bitNo - Number(cur.indx, wordNo, 0);
    NumberParts(cur.indx, wordNo, i);
    BitShr(cur.bits[wordNo], i, 0);
    ShrNothing(bits);
    forall x: nat | Pending(cur, later, wordNo, bits, bitNo, x) ensures bitNo <= x {
      NumberOf(x);
      if In(later, x) {
        var k :| 0 <= k < |later| && InBlock(later[k], x);
      }
    }
  }

  lemma ShrNothing(w: Word)
    ensures Shr(w, 0) == w
    ensures Bit(w, 0) <==> Odd(w)
  {}

  /** A step to the next bit of a word passes over bit_no only. */
  lemma NextBitStep(cur: Block, later: seq<Block>, wordNo: nat, bits: Word, bitNo: nat)
    requires Queue(cur, later) && Placed(cur, wordNo, bits, bitNo) && bits != ZERO
    ensures Placed(cur, wordNo, Half(bits), bitNo + 1)
    ensures Left(cur, later, wordNo, Half(bits), bitNo + 1) == Left(cur, later, wordNo, bits, bitNo) - iset{bitNo}
    ensures !Odd(bits) ==> Half(bits) != ZERO && bitNo !in Left(cur, later, wordNo, bits, bitNo)
  {
    HalfZero(bits);
    hide Odd, Bit, Shr, Half;
    var base := Number(cur.indx, wordNo, 0);
    var word := cur.bits[wordNo];
    var i: nat := bitNo - base;
    NumberParts(cur.indx, wordNo, i);
    ShrLast(word, i);
    if i + 1 == WORD_BITS { ShrAll(word, WORD_BITS); }
    BitShr(word, i, 0);
    ShrNothing(bits);
    NotLater(cur, later, bitNo);
    forall x: nat
      ensures Pending(cur, later, wordNo, Half(bits), bitNo + 1, x) <==>
              Pending(cur, later, wordNo, bits, bitNo, x) && x != bitNo
    {
      if Half(bits) == ZERO && InBlock(cur, x) && x / WORD_BITS % ELEMENT_WORDS == wordNo && bitNo < x {
        NumberOf(x);
        NoBitBeyond(word, i + 1, x % WORD_BITS);
        assert false;
      }
    }
  }

  lemma NoBitBeyond(word: Word, n: nat, i: nat)
    requires Shr(word, n) == ZERO && n <= i
    ensures !Bit(word, i)
  {
    hide Odd, Bit, Shr;
    BitShr(word, n, i - n);
    BitZero(i - n);
  }

  lemma NotLater(cur: Block, later: seq<Block>, x: nat)
    requires Queue(cur, later) && x / ELEMENT_BITS <= cur.indx
    ensures !In(later, x)
  {}

  /** Loading word w of the current block, at its first bit. */
  lemma LoadWord(cur: Block, later: seq<Block>, w: nat)
    requires Queue(cur, later) && w < ELEMENT_WORDS
    ensures cur.bits[w] != ZERO ==> Placed(cur, w, cur.bits[w], Number(cur.indx, w, 0))
    ensures LeftFrom(cur, later, w) == Left(cur, later, w, cur.bits[w], Number(cur.indx, w, 0))
    ensures cur.bits[w] == ZERO ==> LeftFrom(cur, later, w) == LeftFrom(cur, later, w + 1)
  {
    hide Bit, Shr;
    ShrNothing(cur.bits[w]);
    forall x: nat
      ensures FromWord(cur, later, w, x) <==> Pending(cur, later, w, cur.bits[w], Number(cur.indx, w, 0), x)
    {
      NumberOf(x);
      BitZero(x % WORD_BITS);
    }
  }

  /** Loading part of a word, from bit i on, for a start in the middle of an element. */
  lemma LoadFrom(cur: Block, later: seq<Block>, w: nat, i: nat, bits: Word)
    requires Queue(cur, later) && w < ELEMENT_WORDS && i < WORD_BITS && bits == Shr(cur.bits[w], i)
    ensures var start := Number(cur.indx, w, i);
            var bitNo := start + if bits == ZERO then 1 else 0;
      && Placed(cur, w, bits, bitNo)
      && Left(cur, later, w, bits, bitNo) == FromBit(cur, later, start)
  {
    hide Bit, Shr;
    var start := Number(cur.indx, w, i);
    var bitNo := start + if bits == ZERO then 1 else 0;
    forall x: nat
      ensures Pending(cur, later, w, bits, bitNo, x) <==> start <= x && (InBlock(cur, x) || In(later, x))
    {
      NumberOf(x);
      if x < start { if x / ELEMENT_BITS <= cur.indx { NotLater(cur, later, x); } }
      if bits == ZERO && InBlock(cur, x) && start <= x && x / WORD_BITS % ELEMENT_WORDS == w {
        NoBitBeyond(cur.bits[w], i, x % WORD_BITS);
      }
    }
  }

  /** After the last word only later blocks are left. */
  lemma NextBlock(cur: Block, later: seq<Block>)
    requires Queue(cur, later)
    ensures LeftFrom(cur, later, ELEMENT_WORDS) == Members(later)
  {}

  lemma TakeBlock(later: seq<Block>)
    requires Sized(later) && Sorted(later) && |later| > 0
    ensures Queue(later[0], later[1..])
    ensures Members(later) == LeftFrom(later[0], later[1..], 0)
  {
    hide BitOf;
    forall x: nat ensures In(later, x) <==> FromWord(later[0], later[1..], 0, x) {
      InTail(later, 0, x);
      assert later[0..] == later;
    }
  }

  /** In the middle of a word of which nothing is left. */
  lemma WordDone(cur: Block, later: seq<Block>, wordNo: nat, bitNo: nat)
    ensures Left(cur, later, wordNo, ZERO, bitNo) == LeftFrom(cur, later, wordNo + 1)
  {}

  lemma RoundUp(q: nat, bitNo: nat)
    requires q * WORD_BITS < bitNo <= (q + 1) * WORD_BITS
    ensures (bitNo + WORD_BITS - 1) / WORD_BITS * WORD_BITS == (q + 1) * WORD_BITS
  {
    var r := bitNo - q * WORD_BITS - 1;
    assert bitNo + WORD_BITS - 1 == (q + 1) * WORD_BITS + r;
    assert ((q + 1) * WORD_BITS + r) / WORD_BITS == q + 1;
  }

  // ---- iterating over a merge of two block sequences ----

  /** What is iterated over of element i of a, with element j of b at the same index or beyond. */
  ghost function MergeCurrent(op: BoolOp, a: seq<Block>, i: nat, b: seq<Block>, j: nat): Block
    requires i < |a| && j <= |b| && Sized(a) && Sized(b)
  {
    if j < |b| && a[i].indx == b[j].indx then Block(a[i].indx, WordsOp(op, a[i].bits, b[j].bits))
    else Block(a[i].indx, if KeepsLeft(op) then a[i].bits else ZEROS)
  }

  lemma MergeQueue(op: BoolOp, a: seq<Block>, i: nat, b: seq<Block>, j: nat)
    requires Canonical(a) && Canonical(b) && i < |a| && j <= |b| && !KeepsRight(op)
    requires j < |b| ==> a[i].indx <= b[j].indx
    ensures Queue(MergeCurrent(op, a, i, b, j), RawMerge(op, a, i + 1, b, j))
    ensures LeftFrom(MergeCurrent(op, a, i, b, j), RawMerge(op, a, i + 1, b, j), 0) == Members(RawMerge(op, a, i, b, j))
  {
    hide BitOf, WordsOp, RawMerge, Sorted, FromWord;
    QueueOf(op, a, i, b, j);
    var cur, later := MergeCurrent(op, a, i, b, j), RawMerge(op, a, i + 1, b, j);
    forall x: nat ensures FromWord(cur, later, 0, x) <==> In(RawMerge(op, a, i, b, j), x) {
      MergeHead(op, a, i, b, j, x);
      FromStart(cur, later, x);
    }
  }

  lemma FromStart(cur: Block, later: seq<Block>, x: nat)
    ensures FromWord(cur, later, 0, x) <==> InBlock(cur, x) || In(later, x)
  {}

  lemma QueueOf(op: BoolOp, a: seq<Block>, i: nat, b: seq<Block>, j: nat)
    requires Canonical(a) && Canonical(b) && i < |a| && j <= |b| && !KeepsRight(op)
    requires j < |b| ==> a[i].indx <= b[j].indx
    ensures Queue(MergeCurrent(op, a, i, b, j), RawMerge(op, a, i + 1, b, j))
  {
    hide RawMerge, WordsOp;
    if j < |b| && a[i].indx == b[j].indx {
      NothingComputed();
      StepRight(op, a, i + 1, b, j, []);
      RawMergeShape(op, a, i + 1, b, j + 1, a[i].indx + 1);
    } else {
      RawMergeShape(op, a, i + 1, b, j, a[i].indx + 1);
    }
  }

  lemma MergeHead(op: BoolOp, a: seq<Block>, i: nat, b: seq<Block>, j: nat, x: nat)
    requires Canonical(a) && Canonical(b) && i < |a| && j <= |b| && !KeepsRight(op)
    requires j < |b| ==> a[i].indx <= b[j].indx
    ensures In(RawMerge(op, a, i, b, j), x) <==>
              InBlock(MergeCurrent(op, a, i, b, j), x) || In(RawMerge(op, a, i + 1, b, j), x)
  {
    hide RawMerge, WordsOp, BitOf, In;
    NothingComputed();
    var cur := MergeCurrent(op, a, i, b, j);
    if j < |b| && a[i].indx == b[j].indx {
      StepBoth(op, a, i, b, j, []);
      StepRight(op, a, i + 1, b, j, []);
      InConcat([cur], RawMerge(op, a, i + 1, b, j + 1), x);
      InOne(cur, x);
    } else {
      StepLeft(op, a, i, b, j, []);
      InConcat([cur], RawMerge(op, a, i + 1, b, j), x);
      InOne(cur, x);
      NoBitInZeros(x);
    }
  }

  /** What is behind the current elements does not depend on elements of b that are not beyond it. */
  lemma MergeSkip(op: BoolOp, a: seq<Block>, i: nat, b: seq<Block>, j: nat)
    requires Sized(a) && Sized(b) && i <= |a| && j <= |b| && !KeepsRight(op)
    ensures j < |b| && (i == |a| || b[j].indx < a[i].indx) ==>
              RawMerge(op, a, i, b, j) == RawMerge(op, a, i, b, j + 1)
    ensures i < |a| && (j == |b| || a[i].indx < b[j].indx) && !KeepsLeft(op) ==>
              RawMerge(op, a, i, b, j) == RawMerge(op, a, i + 1, b, j)
    ensures i == |a| || (j == |b| && !KeepsLeft(op)) ==> RawMerge(op, a, i, b, j) == []
  {
    hide RawMerge;
    NothingComputed();
    if j < |b| && (i == |a| || b[j].indx < a[i].indx) { StepRight(op, a, i, b, j, []); }
    if i < |a| && (j == |b| || a[i].indx < b[j].indx) { StepLeft(op, a, i, b, j, []); }
    if i == |a| || (j == |b| && !KeepsLeft(op)) { NothingLeft(op, a, i, b, j); }
  }

  lemma InFront(bs: seq<Block>, i: nat, indx: nat, x: nat)
    requires i <= |bs| && forall m :: 0 <= m < i ==> bs[m].indx < indx
    ensures In(bs[..i], x) ==> x / ELEMENT_BITS < indx
  {}

  lemma InBehind(bs: seq<Block>, i: nat, x: nat)
    requires Sorted(bs) && i < |bs|
    ensures In(bs[i..], x) ==> bs[i].indx <= x / ELEMENT_BITS
  {
    hide BitOf;
  }

  /** From a start bit on, elements in front of its block, and elements of b in front of those of a, do not matter. */
  lemma StartMerge(op: BoolOp, a: seq<Block>, i: nat, b: seq<Block>, j: nat, startBit: nat)
    requires Canonical(a) && Canonical(b) && i <= |a| && j <= |b| && (op == AndOp || op == AndComplOp)
    requires forall m :: 0 <= m < i ==> a[m].indx < startBit / ELEMENT_BITS
    requires i < |a| ==> forall m :: 0 <= m < j ==> b[m].indx < a[i].indx
    ensures From(SetOp(op, Members(a), Members(b)), startBit) == From(Members(RawMerge(op, a, i, b, j)), startBit)
  {
    hide BitOf, RawMerge;
    forall x: nat | startBit <= x
      ensures x in SetOp(op, Members(a), Members(b)) <==> In(RawMerge(op, a, i, b, j), x)
    {
      RawMergeIn(op, a, i, b, j, x);
      assert a == a[..i] + a[i..] && b == b[..j] + b[j..];
      InConcat(a[..i], a[i..], x);
      InConcat(b[..j], b[j..], x);
      InFront(a, i, startBit / ELEMENT_BITS, x);
      if i < |a| {
        InBehind(a, i, x);
        InFront(b, j, a[i].indx, x);
      }
    }
  }

  lemma StartQueue(cur: Block, later: seq<Block>, startBit: nat)
    requires Queue(cur, later) && startBit / ELEMENT_BITS <= cur.indx
    ensures From(LeftFrom(cur, later, 0), startBit) == FromBit(cur, later, StartBit(cur.indx, startBit))
  {
    hide BitOf;
    forall x: nat
      ensures FromWord(cur, later, 0, x) && startBit <= x <==> StartBit(cur.indx, startBit) <= x && (InBlock(cur, x) || In(later, x))
    {
      FromStart(cur, later, x);
      if In(later, x) {
        var k :| 0 <= k < |later| && InBlock(later[k], x);
      }
    }
  }

  /** An element with nothing to visit. */
  lemma StartNothing(cur: Block, later: seq<Block>, startBit: nat)
    requires Queue(cur, later) && cur.bits == ZEROS && startBit / ELEMENT_BITS <= cur.indx
    ensures From(LeftFrom(cur, later, 0), startBit) == LeftFrom(cur, later, ELEMENT_WORDS)
  {
    hide BitOf;
    forall x: nat
      ensures FromWord(cur, later, 0, x) && startBit <= x <==> FromWord(cur, later, ELEMENT_WORDS, x)
    {
      FromStart(cur, later, x);
      NoBitInZeros(x);
      if In(later, x) {
        var k :| 0 <= k < |later| && InBlock(later[k], x);
      }
    }
  }

  lemma FromNothing(startBit: nat)
    ensures From(iset{}, startBit) == iset{}
  {}

  // ---- the iterators ----

  /** bitmap_zero_bits, which stands for the element of an exhausted list. */
  ghost predicate ZeroBits(zero: Element)
    reads zero
  {
    zero.next == null && zero.indx == 0 && zero.bits == ZEROS
  }

  /** The loop that advances an element until it is not before the given block. */
  method AdvanceTo(head: Bitmap, from: Element?, block: nat, ghost c: nat) returns (elt: Element?, ghost k: nat)
    requires head.Links() && c <= |head.elems| && from == Nth(head.elems, c)
    ensures c <= k <= |head.elems| == |head.blocks| && elt == Nth(head.elems, k)
    ensures forall m :: c <= m < k ==> head.blocks[m].indx < block
    ensures elt != null ==> k < |head.blocks| && block <= head.blocks[k].indx == elt.indx
  {
    hide Bitmap.Linked, Bitmap.Holding, Bitmap.Node;
    elt, k := from, c;
    head.Ends();
    while elt != null && elt.indx < block
      invariant c <= k <= |head.elems| == |head.blocks| && elt == Nth(head.elems, k)
      invariant forall m :: c <= m < k ==> head.blocks[m].indx < block
      decreases |head.elems| - k
    {
      head.NodeAt(k);
      elt, k := elt.next, k + 1;
    }
    if elt != null { head.NodeAt(k); }
  }

  class BitmapIterator {
    var elt1: Element?
    var elt2: Element?
    var word_no: nat
    var bits: Word
    const zero: Element
    ghost var cur: Block         // what is iterated over of the current elements
    ghost var later: seq<Block>  // and of the ones behind them

    constructor (z: Element)
      ensures zero == z
    {
      zero := z;
    }

    ghost predicate Ready(bitNo: nat)
      reads this
    {
      Queue(cur, later) && Placed(cur, word_no, bits, bitNo)
    }

    ghost function Rest(bitNo: nat): iset<nat>
      reads this
    {
      Left(cur, later, word_no, bits, bitNo)
    }

    /** bmp_iter_next */
    method Next(bitNo: nat) returns (bitNo': nat)
      requires Ready(bitNo) && Odd(bits)
      modifies this`bits
      ensures Ready(bitNo') && Rest(bitNo') == old(Rest(bitNo)) - iset{bitNo}
    {
      hide Half, Placed, Left;
      SmallWords(0);
      NextBitStep(cur, later, word_no, bits, bitNo);
      bits := Half(bits);
      bitNo' := bitNo + 1;
    }

    /** The loop at next_bit. */
    method NextBit(bitNo: nat) returns (bitNo': nat)
      requires Ready(bitNo) && bits != ZERO
      modifies this`bits
      ensures Ready(bitNo') && Odd(bits) && Rest(bitNo') == old(Rest(bitNo))
      ensures bitNo' in Rest(bitNo') && forall x: nat :: x in Rest(bitNo') ==> bitNo' <= x
    {
      hide Half, Odd, Left, Queue, Placed;
      bitNo' := bitNo;
      ghost var end := Number(cur.indx, word_no, 0) + WORD_BITS;
      while !Odd(bits)
        invariant Ready(bitNo') && bits != ZERO && Rest(bitNo') == old(Rest(bitNo))
        decreases end - bitNo'
      {
        PlacedBelow(cur, word_no, bits, bitNo');
        NextBitStep(cur, later, word_no, bits, bitNo');
        bits := Half(bits);
        bitNo' := bitNo' + 1;
      }
      FoundBit(cur, later, word_no, bits, bitNo');
    }

    // ---- one bitmap ----

    /** The iterator is at element k of the list, or at the zero element. */
    ghost predicate InSet(head: Bitmap)
      reads this`elt1, this`cur, this`later, zero, head`elems, head`blocks
    {
      && ZeroBits(zero) && elt1 != null
      && (elt1 == zero ==> cur == Block(0, ZEROS) && later == [])
      && (elt1 != zero ==> exists k :: 0 <= k < |head.elems| && AtSet(head, k))
    }

    ghost predicate AtSet(head: Bitmap, k: nat)
      reads this`elt1, this`cur, this`later, head`elems, head`blocks
    {
      k < |head.elems| == |head.blocks| && elt1 == head.elems[k] && cur == head.blocks[k] && later == head.blocks[k + 1..]
    }

    /** bmp_iter_set_init */
    method SetInit(head: Bitmap, startBit: nat) returns (bitNo: nat)
      requires head.Valid() && ZeroBits(zero) && zero !in head.elems
      modifies this
      ensures InSet(head) && Ready(bitNo)
      ensures Rest(bitNo) == From(Members(head.blocks), startBit)
    {
      hide Bitmap.Linked, Bitmap.Holding, Bitmap.Node, Bitmap.Links, Placed, Left, BitOf, FromBit, From, Members, Sized, Sorted, AtLeast, StartBit, Number;
      head.Ends();
      ghost var k: nat;
      elt1, k := AdvanceTo(head, head.first, startBit / ELEMENT_BITS, 0);
      elt2 := null;
      if elt1 == null {
        elt1 := zero;
        cur, later := Block(0, ZEROS), [];
      } else {
        head.NodeAt(k);
        cur, later := head.blocks[k], head.blocks[k + 1..];
        assert AtSet(head, k);
      }
      assert InSet(head);
      StartAt(head.blocks, k, startBit);
      ZeroBlock(StartBit(0, startBit));
      StartPlace(elt1.indx, startBit);
      // We might have gone past the start bit.
      var start := StartBit(elt1.indx, startBit);
      word_no := start / WORD_BITS % ELEMENT_WORDS;
      bits := Shr(elt1.bits[word_no], start % WORD_BITS);
      LoadFrom(cur, later, word_no, start % WORD_BITS, bits);
      // A zero word must not be left at its first bit.
      bitNo := start + if bits == ZERO then 1 else 0;
    }

    /** The loop that looks for a nonzero word in the current element. */
    method NextWordSet(head: Bitmap, bitNo: nat) returns (found: bool, bitNo': nat)
      requires head.Links() && InSet(head) && Queue(cur, later) && word_no <= ELEMENT_WORDS
      requires word_no < ELEMENT_WORDS ==> bitNo == Number(cur.indx, word_no, 0)
      modifies this`bits, this`word_no
      ensures found ==> Ready(bitNo') && bits != ZERO && Rest(bitNo') == old(LeftFrom(cur, later, word_no))
      ensures !found ==> old(LeftFrom(cur, later, word_no)) == Members(later)
    {
      hide Bitmap.Linked, Bitmap.Holding, Bitmap.Node, Bitmap.Links, Placed, Left, LeftFrom, Members, Queue;
      bitNo' := bitNo;
      ShapeOf(cur, later);
      WordsSet(head);
      while word_no != ELEMENT_WORDS
        invariant word_no <= ELEMENT_WORDS && LeftFrom(cur, later, word_no) == old(LeftFrom(cur, later, word_no))
        invariant word_no < ELEMENT_WORDS ==> bitNo' == Number(cur.indx, word_no, 0)
      {
        LoadWord(cur, later, word_no);
        bits := elt1.bits[word_no];
        if bits != ZERO {
          return true, bitNo';
        }
        bitNo' := bitNo' + WORD_BITS;
        word_no := word_no + 1;
      }
      NextBlock(cur, later);
      return false, bitNo';
    }

    lemma WordsSet(head: Bitmap)
      requires head.Links() && InSet(head)
      ensures elt1.bits == cur.bits
    {
      hide Bitmap.Linked, Bitmap.Holding, Bitmap.Node, Bitmap.Links;
      if elt1 != zero {
        var k :| 0 <= k < |head.elems| && AtSet(head, k);
        head.NodeAt(k);
      }
    }

    /** bmp_iter_set */
    method IterSet(head: Bitmap, bitNo: nat) returns (found: bool, bitNo': nat)
      requires head.Links() && InSet(head) && Ready(bitNo) && zero !in head.elems
      modifies this
      ensures found ==> InSet(head) && Ready(bitNo') && Odd(bits) && Rest(bitNo') == old(Rest(bitNo))
      ensures found ==> bitNo' in Rest(bitNo') && forall x: nat :: x in Rest(bitNo') ==> bitNo' <= x
      ensures !found ==> old(Rest(bitNo)) == iset{}
    {
      hide Bitmap.Linked, Bitmap.Holding, Bitmap.Node, Bitmap.Links, Placed, Left, LeftFrom, Members, Queue, Odd, Number, InSet;
      if bits != ZERO {
        bitNo' := NextBit(bitNo);
        return true, bitNo';
      }
      bitNo' := Rounded(cur, later, word_no, bitNo);
      word_no := word_no + 1;
      while true
        invariant InSet(head) && Queue(cur, later) && word_no <= ELEMENT_WORDS
        invariant word_no < ELEMENT_WORDS ==> bitNo' == Number(cur.indx, word_no, 0)
        invariant LeftFrom(cur, later, word_no) == old(Rest(bitNo))
        decreases |later|
      {
        found, bitNo' := NextWordSet(head, bitNo');
        if found {
          bitNo' := NextBit(bitNo');
          return true, bitNo';
        }
        var more := NextElementSet(head);
        if !more {
          return false, bitNo';
        }
        bitNo' := elt1.indx * ELEMENT_BITS;
        FirstBit(elt1.indx);
        word_no := 0;
      }
    }

    /** Advancing to the next element. */
    method NextElementSet(head: Bitmap) returns (more: bool)
      requires head.Links() && InSet(head) && Queue(cur, later) && zero !in head.elems
      modifies this`elt1, this`cur, this`later
      ensures more ==> InSet(head) && Queue(cur, later) && |later| < |old(later)|
      ensures more ==> elt1 != null && elt1.indx == cur.indx && LeftFrom(cur, later, 0) == Members(old(later))
      ensures !more ==> Members(old(later)) == iset{}
    {
      hide Bitmap.Linked, Bitmap.Holding, Bitmap.Node, Bitmap.Links, LeftFrom, Members, Canonical;
      if elt1 == zero {
        elt1 := elt1.next;
        NilMembers();
        return false;
      }
      ghost var k :| 0 <= k < |head.elems| && AtSet(head, k);
      head.NodeAt(k);
      elt1 := elt1.next;
      if elt1 == null {
        NilMembers();
        return false;
      }
      head.NodeAt(k + 1);
      TakeBlock(later);
      cur, later := later[0], later[1..];
      assert AtSet(head, k + 1);
      return true;
    }

    // ---- the intersection of two bitmaps ----

    /** The iterator is at element i of a and element j of b, or at the zero element in both. */
    ghost predicate InAnd(a: Bitmap, b: Bitmap)
      reads this`elt1, this`elt2, this`cur, this`later, zero, a`elems, a`blocks, b`elems, b`blocks
    {
      && ZeroBits(zero) && elt1 != null && elt2 != null
      && (elt1 == zero ==> elt2 == zero && cur == Block(0, ZEROS) && later == [])
      && (elt1 != zero ==> exists i, j :: 0 <= i < |a.elems| && 0 <= j < |b.elems| && AtAnd(a, b, i, j))
    }

    ghost predicate AtAnd(a: Bitmap, b: Bitmap, i: nat, j: nat)
      reads this`elt1, this`elt2, this`cur, this`later, a`elems, a`blocks, b`elems, b`blocks
    {
      && i < |a.elems| == |a.blocks| && j < |b.elems| == |b.blocks| && elt1 == a.elems[i] && elt2 == b.elems[j]
      && Canonical(a.blocks) && Canonical(b.blocks) && a.blocks[i].indx <= b.blocks[j].indx
      && cur == MergeCurrent(AndOp, a.blocks, i, b.blocks, j) && later == RawMerge(AndOp, a.blocks, i + 1, b.blocks, j)
    }

    /** The current elements have different indices only before an advance. */
    ghost predicate Same()
      reads this`elt1, this`elt2, this`word_no, elt1, elt2
    {
      elt1 != null && elt2 != null && (elt1.indx == elt2.indx || ELEMENT_WORDS <= word_no + 1)
    }

    /** The two loops of bmp_iter_and_init. */
    method AndFirst(a: Bitmap, b: Bitmap, startBit: nat)
      requires a.Valid() && b.Valid() && ZeroBits(zero) && zero !in a.elems && zero !in b.elems
      modifies this`elt1, this`elt2, this`cur, this`later
      ensures InAnd(a, b) && Queue(cur, later) && elt1 != null && elt2 != null && elt1.indx == cur.indx
      ensures if elt1 == zero then From(Members(a.blocks) * Members(b.blocks), startBit) == iset{}
              else startBit / ELEMENT_BITS <= cur.indx &&
                   From(Members(a.blocks) * Members(b.blocks), startBit) == From(LeftFrom(cur, later, 0), startBit)
    {
      hide Bitmap.Linked, Bitmap.Holding, Bitmap.Node, Bitmap.Links, LeftFrom, BitOf, From, Members,
        Sized, Sorted, NonZero, AtLeast, RawMerge, MergeCurrent, Queue;
      a.Ends();
      b.Ends();
      ghost var i: nat, j: nat := 0, 0;
      elt1, i := AdvanceTo(a, a.first, startBit / ELEMENT_BITS, 0);
      elt2 := null;
      if elt1 != null {
        elt2, j := AdvanceTo(b, b.first, elt1.indx, 0);
        a.NodeAt(i);
      }
      MergeSkip(AndOp, a.blocks, i, b.blocks, j);
      StartMerge(AndOp, a.blocks, i, b.blocks, j, startBit);
      FromNothing(startBit);
      NilMembers();
      if elt2 == null {
        ZeroBlock(0);
        elt1, elt2 := zero, zero;
        cur, later := Block(0, ZEROS), [];
      } else {
        cur, later := MergeCurrent(AndOp, a.blocks, i, b.blocks, j), RawMerge(AndOp, a.blocks, i + 1, b.blocks, j);
        MergeQueue(AndOp, a.blocks, i, b.blocks, j);
        CurrentAnd(a.blocks, i, b.blocks, j);
        assert AtAnd(a, b, i, j);
      }
    }

    /** bmp_iter_and_init */
    method AndInit(a: Bitmap, b: Bitmap, startBit: nat) returns (bitNo: nat)
      requires a.Valid() && b.Valid() && ZeroBits(zero) && zero !in a.elems && zero !in b.elems
      modifies this
      ensures InAnd(a, b) && Ready(bitNo) && Same()
      ensures Rest(bitNo) == From(Members(a.blocks) * Members(b.blocks), startBit)
    {
      hide Bitmap.Linked, Bitmap.Holding, Bitmap.Node, Bitmap.Links, Placed, Left, LeftFrom, BitOf, FromBit, From, Members,
        Sized, Sorted, NonZero, AtLeast, StartBit, Number, RawMerge, MergeCurrent, Queue, InAnd, Shr, Words.And, SetOp;
      AndFirst(a, b, startBit);
      StartPlace(elt1.indx, startBit);
      WordsAnd(a, b);
      StartKnown(cur, later, startBit, elt1 == zero);
      var start := startBit;
      if elt1.indx == elt2.indx {
        // We might have advanced beyond the start bit.
        start := StartBit(elt1.indx, startBit);
        word_no := start / WORD_BITS % ELEMENT_WORDS;
        bits := Shr(And(elt1.bits[word_no], elt2.bits[word_no]), start % WORD_BITS);
        LoadFrom(cur, later, word_no, start % WORD_BITS, bits);
      } else {
        // We must immediately advance.
        word_no := ELEMENT_WORDS - 1;
        bits := ZERO;
        WordDone(cur, later, word_no, startBit + 1);
        PlacedLast(cur, word_no, startBit + 1);
      }
      bitNo := start + if bits == ZERO then 1 else 0;
    }

    lemma WordsAnd(a: Bitmap, b: Bitmap)
      requires a.Links() && b.Links() && InAnd(a, b)
      ensures |elt1.bits| == |elt2.bits| == |cur.bits| == ELEMENT_WORDS && elt1.indx == cur.indx
      ensures elt1.indx == elt2.indx ==>
                forall w :: 0 <= w < ELEMENT_WORDS ==> And(elt1.bits[w], elt2.bits[w]) == cur.bits[w]
      ensures elt1.indx != elt2.indx ==> elt1 != zero && cur.bits == ZEROS
      ensures elt1 == zero ==> cur == Block(0, ZEROS) && later == []
    {
      hide Bitmap.Linked, Bitmap.Holding, Bitmap.Node, Bitmap.Links, RawMerge, MergeCurrent, And;
      if elt1 == zero {
        And00();
      } else {
        var i, j :| 0 <= i < |a.elems| && 0 <= j < |b.elems| && AtAnd(a, b, i, j);
        a.NodeAt(i);
        b.NodeAt(j);
        CurrentAnd(a.blocks, i, b.blocks, j);
      }
    }

    /** The loop that looks for a nonzero word in the current elements. */
    method NextWordAnd(a: Bitmap, b: Bitmap, bitNo: nat) returns (found: bool, bitNo': nat)
      requires a.Links() && b.Links() && InAnd(a, b) && Queue(cur, later) && word_no <= ELEMENT_WORDS
      requires elt1 != null && elt2 != null && (word_no < ELEMENT_WORDS ==> elt1.indx == elt2.indx)
      requires word_no < ELEMENT_WORDS ==> bitNo == Number(cur.indx, word_no, 0)
      modifies this`bits, this`word_no
      ensures found ==> Ready(bitNo') && Same() && bits != ZERO && Rest(bitNo') == old(LeftFrom(cur, later, word_no))
      ensures !found ==> old(LeftFrom(cur, later, word_no)) == Members(later)
    {
      hide Bitmap.Linked, Bitmap.Holding, Bitmap.Node, Bitmap.Links, Placed, Left, LeftFrom, Members, Queue, Words.And, InAnd;
      bitNo' := bitNo;
      WordsAnd(a, b);
      while word_no != ELEMENT_WORDS
        invariant word_no <= ELEMENT_WORDS && LeftFrom(cur, later, word_no) == old(LeftFrom(cur, later, word_no))
        invariant word_no < ELEMENT_WORDS ==> bitNo' == Number(cur.indx, word_no, 0)
      {
        LoadWord(cur, later, word_no);
        bits := And(elt1.bits[word_no], elt2.bits[word_no]);
        if bits != ZERO {
          return true, bitNo';
        }
        bitNo' := bitNo' + WORD_BITS;
        word_no := word_no + 1;
      }
      NextBlock(cur, later);
      return false, bitNo';
    }

    /** bmp_iter_and */
    method IterAnd(a: Bitmap, b: Bitmap, bitNo: nat) returns (found: bool, bitNo': nat)
      requires a.Links() && b.Links() && InAnd(a, b) && Ready(bitNo) && Same() && zero !in a.elems
      modifies this
      ensures found ==> InAnd(a, b) && Ready(bitNo') && Same() && Odd(bits) && Rest(bitNo') == old(Rest(bitNo))
      ensures found ==> bitNo' in Rest(bitNo') && forall x: nat :: x in Rest(bitNo') ==> bitNo' <= x
      ensures !found ==> old(Rest(bitNo)) == iset{}
    {
      hide Bitmap.Linked, Bitmap.Holding, Bitmap.Node, Bitmap.Links, Placed, Left, LeftFrom, Members, Queue, Odd, Number, InAnd;
      if bits != ZERO {
        bitNo' := NextBit(bitNo);
        return true, bitNo';
      }
      bitNo' := Rounded(cur, later, word_no, bitNo);
      word_no := word_no + 1;
      while true
        invariant InAnd(a, b) && Queue(cur, later) && word_no <= ELEMENT_WORDS
        invariant elt1 != null && elt2 != null && (word_no < ELEMENT_WORDS ==> elt1.indx == elt2.indx)
        invariant word_no < ELEMENT_WORDS ==> bitNo' == Number(cur.indx, word_no, 0)
        invariant LeftFrom(cur, later, word_no) == old(Rest(bitNo))
        decreases |later|
      {
        found, bitNo' := NextWordAnd(a, b, bitNo');
        if found {
          bitNo' := NextBit(bitNo');
          return true, bitNo';
        }
        var more := NextElementAnd(a, b);
        if !more {
          return false, bitNo';
        }
        bitNo' := elt1.indx * ELEMENT_BITS;
        FirstBit(elt1.indx);
        word_no := 0;
      }
    }

    /** The loops that advance to the next identical element. */
    method NextElementAnd(a: Bitmap, b: Bitmap) returns (more: bool)
      requires a.Links() && b.Links() && InAnd(a, b) && Queue(cur, later) && zero !in a.elems
      modifies this`elt1, this`elt2, this`cur, this`later
      ensures more ==> InAnd(a, b) && Queue(cur, later) && |later| < |old(later)|
      ensures more ==> elt1 != null && elt2 != null && elt1.indx == elt2.indx == cur.indx
      ensures more ==> LeftFrom(cur, later, 0) == Members(old(later))
      ensures !more ==> Members(old(later)) == iset{}
    {
      hide Bitmap.Linked, Bitmap.Holding, Bitmap.Node, Bitmap.Links, LeftFrom, Members, RawMerge, MergeCurrent, Queue,
        Sized, Sorted, NonZero;
      NilMembers();
      if elt1 == zero {
        elt1 := elt1.next;
        return false;
      }
      ghost var i, j :| 0 <= i < |a.elems| && 0 <= j < |b.elems| && AtAnd(a, b, i, j);
      ghost var A, B := a.blocks, b.blocks;
      i := i + 1;
      a.NodeAt(i - 1);
      elt1 := elt1.next;
      while true
        invariant i <= |a.elems| == |A| && elt1 == Nth(a.elems, i)
        invariant j < |b.elems| == |B| && elt2 == b.elems[j]
        invariant old(later) == RawMerge(AndOp, A, i, B, j)
        decreases |A| - i + |B| - j
      {
        MergeSkip(AndOp, A, i, B, j);
        if elt1 == null {
          return false;
        }
        a.NodeAt(i);
        b.NodeAt(j);
        if elt1.indx < elt2.indx {
          elt1, i := elt1.next, i + 1;
        } else if elt2.indx < elt1.indx {
          elt2, j := elt2.next, j + 1;
          MergeSkip(AndOp, A, i, B, j);
          if elt2 == null {
            return false;
          }
        } else {
          break;
        }
      }
      MergeQueue(AndOp, A, i, B, j);
      MergeCons(A, i, B, j);
      cur, later := MergeCurrent(AndOp, A, i, B, j), RawMerge(AndOp, A, i + 1, B, j);
      CurrentAnd(A, i, B, j);
      assert AtAnd(a, b, i, j);
      return true;
    }

    // ---- the difference of two bitmaps ----

    /** The iterator is at element i of a, or at the zero element; element j of b is not before it. */
    ghost predicate InAndCompl(a: Bitmap, b: Bitmap)
      reads this`elt1, this`elt2, this`cur, this`later, zero, a`elems, a`blocks, b`elems, b`blocks
    {
      && ZeroBits(zero) && elt1 != null
      && (elt1 == zero ==> cur == Block(0, ZEROS) && later == [] && (elt2 == null || elt2 in b.elems))
      && (elt1 != zero ==> exists i, j :: 0 <= i < |a.elems| && 0 <= j <= |b.elems| && AtAndCompl(a, b, i, j))
    }

    ghost predicate AtAndCompl(a: Bitmap, b: Bitmap, i: nat, j: nat)
      reads this`elt1, this`elt2, this`cur, this`later, a`elems, a`blocks, b`elems, b`blocks
    {
      && i < |a.elems| == |a.blocks| && j <= |b.elems| == |b.blocks| && elt1 == a.elems[i] && elt2 == Nth(b.elems, j)
      && Canonical(a.blocks) && Canonical(b.blocks) && (j < |b.blocks| ==> a.blocks[i].indx <= b.blocks[j].indx)
      && cur == MergeCurrent(AndComplOp, a.blocks, i, b.blocks, j)
      && later == RawMerge(AndComplOp, a.blocks, i + 1, b.blocks, j)
    }

    /** The loops of bmp_iter_and_compl_init. */
    method AndComplFirst(a: Bitmap, b: Bitmap, startBit: nat)
      requires a.Valid() && b.Valid() && ZeroBits(zero) && zero !in a.elems
      modifies this`elt1, this`elt2, this`cur, this`later
      ensures InAndCompl(a, b) && Queue(cur, later) && elt1 != null && elt1.indx == cur.indx
      ensures if elt1 == zero then From(Members(a.blocks) - Members(b.blocks), startBit) == iset{}
              else startBit / ELEMENT_BITS <= cur.indx &&
                   From(Members(a.blocks) - Members(b.blocks), startBit) == From(LeftFrom(cur, later, 0), startBit)
    {
      hide Bitmap.Linked, Bitmap.Holding, Bitmap.Node, Bitmap.Links, LeftFrom, BitOf, From, Members,
        Sized, Sorted, NonZero, AtLeast, RawMerge, MergeCurrent, Queue;
      a.Ends();
      b.Ends();
      ghost var i: nat, j: nat := 0, 0;
      elt1, i := AdvanceTo(a, a.first, startBit / ELEMENT_BITS, 0);
      FromNothing(startBit);
      NilMembers();
      if elt1 == null {
        MergeSkip(AndComplOp, a.blocks, i, b.blocks, 0);
        StartMerge(AndComplOp, a.blocks, i, b.blocks, 0, startBit);
        ZeroBlock(0);
        elt1 := zero;
        cur, later := Block(0, ZEROS), [];
        elt2, j := AdvanceTo(b, b.first, elt1.indx, 0);
      } else {
        a.NodeAt(i);
        elt2, j := AdvanceTo(b, b.first, elt1.indx, 0);
        StartMerge(AndComplOp, a.blocks, i, b.blocks, j, startBit);
        cur, later := MergeCurrent(AndComplOp, a.blocks, i, b.blocks, j), RawMerge(AndComplOp, a.blocks, i + 1, b.blocks, j);
        MergeQueue(AndComplOp, a.blocks, i, b.blocks, j);
        CurrentAndCompl(a.blocks, i, b.blocks, j);
        assert AtAndCompl(a, b, i, j);
      }
    }

    /** The word to visit: that of elt1 without what elt2 has, where they have the same index. */
    function WordAndCompl(w: nat): Word
      requires elt1 != null && w < |elt1.bits| && (elt2 != null ==> w < |elt2.bits|)
      reads this`elt1, this`elt2, elt1, elt2
    {
      if elt2 != null && elt2.indx == elt1.indx then And(elt1.bits[w], Not(elt2.bits[w])) else elt1.bits[w]
    }

    lemma WordsAndCompl(a: Bitmap, b: Bitmap)
      requires a.Links() && b.Valid() && InAndCompl(a, b)
      ensures elt1 != null && |elt1.bits| == |cur.bits| == ELEMENT_WORDS && elt1.indx == cur.indx
      ensures elt2 != null ==> |elt2.bits| == ELEMENT_WORDS
      ensures forall w :: 0 <= w < ELEMENT_WORDS ==> WordAndCompl(w) == cur.bits[w]
      ensures elt1 == zero ==> cur == Block(0, ZEROS) && later == []
    {
      hide Bitmap.Linked, Bitmap.Holding, Bitmap.Node, Bitmap.Links, RawMerge, MergeCurrent, Words.And, Not, Sorted, NonZero;
      if elt1 == zero {
        And00();
        b.Ends();
        if elt2 != null {
          var j :| 0 <= j < |b.elems| && b.elems[j] == elt2;
          b.NodeAt(j);
        }
      } else {
        var i, j :| 0 <= i < |a.elems| && 0 <= j <= |b.elems| && AtAndCompl(a, b, i, j);
        a.NodeAt(i);
        if j < |b.elems| { b.NodeAt(j); }
        CurrentAndCompl(a.blocks, i, b.blocks, j);
      }
    }

    /** bmp_iter_and_compl_init */
    method AndComplInit(a: Bitmap, b: Bitmap, startBit: nat) returns (bitNo: nat)
      requires a.Valid() && b.Valid() && ZeroBits(zero) && zero !in a.elems
      modifies this
      ensures InAndCompl(a, b) && Ready(bitNo)
      ensures Rest(bitNo) == From(Members(a.blocks) - Members(b.blocks), startBit)
    {
      hide Bitmap.Linked, Bitmap.Holding, Bitmap.Node, Bitmap.Links, Placed, Left, LeftFrom, BitOf, FromBit, From, Members,
        Sized, Sorted, NonZero, AtLeast, StartBit, Number, RawMerge, MergeCurrent, Queue, InAndCompl, Shr, WordAndCompl, SetOp;
      AndComplFirst(a, b, startBit);
      StartPlace(elt1.indx, startBit);
      WordsAndCompl(a, b);
      StartKnown(cur, later, startBit, elt1 == zero);
      // We might have advanced beyond the start bit.
      var start := StartBit(elt1.indx, startBit);
      word_no := start / WORD_BITS % ELEMENT_WORDS;
      bits := Shr(WordAndCompl(word_no), start % WORD_BITS);
      LoadFrom(cur, later, word_no, start % WORD_BITS, bits);
      bitNo := start + if bits == ZERO then 1 else 0;
    }

    /** The loop that looks for a nonzero word in the current element. */
    method NextWordAndCompl(a: Bitmap, b: Bitmap, bitNo: nat) returns (found: bool, bitNo': nat)
      requires a.Links() && b.Valid() && InAndCompl(a, b) && Queue(cur, later) && word_no <= ELEMENT_WORDS
      requires word_no < ELEMENT_WORDS ==> bitNo == Number(cur.indx, word_no, 0)
      modifies this`bits, this`word_no
      ensures found ==> Ready(bitNo') && bits != ZERO && Rest(bitNo') == old(LeftFrom(cur, later, word_no))
      ensures !found ==> old(LeftFrom(cur, later, word_no)) == Members(later)
    {
      hide Bitmap.Linked, Bitmap.Holding, Bitmap.Node, Bitmap.Links, Placed, Left, LeftFrom, Members, Queue, InAndCompl,
        WordAndCompl;
      bitNo' := bitNo;
      WordsAndCompl(a, b);
      while word_no != ELEMENT_WORDS
        invariant word_no <= ELEMENT_WORDS && LeftFrom(cur, later, word_no) == old(LeftFrom(cur, later, word_no))
        invariant word_no < ELEMENT_WORDS ==> bitNo' == Number(cur.indx, word_no, 0)
      {
        LoadWord(cur, later, word_no);
        bits := WordAndCompl(word_no);
        if bits != ZERO {
          return true, bitNo';
        }
        bitNo' := bitNo' + WORD_BITS;
        word_no := word_no + 1;
      }
      NextBlock(cur, later);
      return false, bitNo';
    }

    /** bmp_iter_and_compl */
    method IterAndCompl(a: Bitmap, b: Bitmap, bitNo: nat) returns (found: bool, bitNo': nat)
      requires a.Links() && b.Valid() && InAndCompl(a, b) && Ready(bitNo) && zero !in a.elems
      modifies this
      ensures found ==> InAndCompl(a, b) && Ready(bitNo') && Odd(bits) && Rest(bitNo') == old(Rest(bitNo))
      ensures found ==> bitNo' in Rest(bitNo') && forall x: nat :: x in Rest(bitNo') ==> bitNo' <= x
      ensures !found ==> old(Rest(bitNo)) == iset{}
    {
      hide Bitmap.Linked, Bitmap.Holding, Bitmap.Node, Bitmap.Links, Placed, Left, LeftFrom, Members, Queue, Odd, Number,
        InAndCompl, Bitmap.Valid;
      if bits != ZERO {
        bitNo' := NextBit(bitNo);
        return true, bitNo';
      }
      bitNo' := Rounded(cur, later, word_no, bitNo);
      word_no := word_no + 1;
      while true
        invariant InAndCompl(a, b) && Queue(cur, later) && word_no <= ELEMENT_WORDS
        invariant word_no < ELEMENT_WORDS ==> bitNo' == Number(cur.indx, word_no, 0)
        invariant LeftFrom(cur, later, word_no) == old(Rest(bitNo))
        decreases |later|
      {
        found, bitNo' := NextWordAndCompl(a, b, bitNo');
        if found {
          bitNo' := NextBit(bitNo');
          return true, bitNo';
        }
        var more := NextElementAndCompl(a, b);
        if !more {
          return false, bitNo';
        }
        bitNo' := elt1.indx * ELEMENT_BITS;
        FirstBit(elt1.indx);
        word_no := 0;
      }
    }

    /** Advancing elt1 to the next element, and elt2 until it is not before it. */
    method NextElementAndCompl(a: Bitmap, b: Bitmap) returns (more: bool)
      requires a.Links() && b.Valid() && InAndCompl(a, b) && Queue(cur, later) && zero !in a.elems
      modifies this`elt1, this`elt2, this`cur, this`later
      ensures more ==> InAndCompl(a, b) && Queue(cur, later) && |later| < |old(later)|
      ensures more ==> elt1 != null && elt1.indx == cur.indx
      ensures more ==> LeftFrom(cur, later, 0) == Members(old(later))
      ensures !more ==> Members(old(later)) == iset{}
    {
      hide Bitmap.Linked, Bitmap.Holding, Bitmap.Node, Bitmap.Links, LeftFrom, Members, RawMerge, MergeCurrent, Queue,
        Sized, Sorted, NonZero;
      NilMembers();
      if elt1 == zero {
        elt1 := elt1.next;
        return false;
      }
      ghost var i, j :| 0 <= i < |a.elems| && 0 <= j <= |b.elems| && AtAndCompl(a, b, i, j);
      ghost var A, B := a.blocks, b.blocks;
      i := i + 1;
      a.NodeAt(i - 1);
      elt1 := elt1.next;
      MergeSkip(AndComplOp, A, i, B, j);
      if elt1 == null {
        return false;
      }
      a.NodeAt(i);
      ghost var k: nat;
      elt2, k := AdvanceTo(b, elt2, elt1.indx, j);
      MergeSkipTo(A, i, B, j, k);
      MergeQueue(AndComplOp, A, i, B, k);
      MergeConsCompl(A, i, B, k);
      cur, later := MergeCurrent(AndComplOp, A, i, B, k), RawMerge(AndComplOp, A, i + 1, B, k);
      CurrentAndCompl(A, i, B, k);
      assert AtAndCompl(a, b, i, k);
      return true;
    }
  }

  lemma NilMembers()
    ensures Members([]) == iset{}
  {}

  lemma And00()
    ensures And(ZERO, ZERO) == ZERO && forall y: Word :: And(ZERO, Not(y)) == ZERO
  {}

  lemma CurrentAnd(a: seq<Block>, i: nat, b: seq<Block>, j: nat)
    requires Sized(a) && Sized(b) && i < |a| && j < |b|
    ensures var cur := MergeCurrent(AndOp, a, i, b, j);
      && cur.indx == a[i].indx && |cur.bits| == ELEMENT_WORDS
      && |a[i].bits| == |b[j].bits| == ELEMENT_WORDS
      && if a[i].indx == b[j].indx then forall w :: 0 <= w < ELEMENT_WORDS ==> cur.bits[w] == And(a[i].bits[w], b[j].bits[w])
         else cur.bits == ZEROS
  {
    hide And;
  }

  /** How what there is to visit shows in the current block, wherever that is. */
  lemma StartKnown(cur: Block, later: seq<Block>, startBit: nat, exhausted: bool)
    requires Queue(cur, later) && (exhausted ==> cur == Block(0, ZEROS) && later == [])
    requires !exhausted ==> startBit / ELEMENT_BITS <= cur.indx
    ensures FromBit(cur, later, StartBit(cur.indx, startBit)) == if exhausted then iset{} else From(LeftFrom(cur, later, 0), startBit)
    ensures !exhausted && cur.bits == ZEROS ==> From(LeftFrom(cur, later, 0), startBit) == LeftFrom(cur, later, ELEMENT_WORDS)
  {
    hide LeftFrom, From, FromBit, StartBit, Queue;
    if exhausted {
      ZeroBlock(StartBit(0, startBit));
    } else {
      StartQueue(cur, later, startBit);
      if cur.bits == ZEROS { StartNothing(cur, later, startBit); }
    }
  }

  lemma MergeCons(a: seq<Block>, i: nat, b: seq<Block>, j: nat)
    requires Canonical(a) && Sized(b) && i < |a| && j < |b| && a[i].indx == b[j].indx
    ensures |RawMerge(AndOp, a, i, b, j)| == |RawMerge(AndOp, a, i + 1, b, j)| + 1
  {
    hide RawMerge, WordsOp;
    NothingComputed();
    StepBoth(AndOp, a, i, b, j, []);
    StepRight(AndOp, a, i + 1, b, j, []);
  }

  lemma CurrentAndCompl(a: seq<Block>, i: nat, b: seq<Block>, j: nat)
    requires Sized(a) && Sized(b) && i < |a| && j <= |b|
    ensures var cur := MergeCurrent(AndComplOp, a, i, b, j);
      && cur.indx == a[i].indx && |cur.bits| == |a[i].bits| == ELEMENT_WORDS && (j < |b| ==> |b[j].bits| == ELEMENT_WORDS)
      && forall w :: 0 <= w < ELEMENT_WORDS ==>
           cur.bits[w] == if j < |b| && a[i].indx == b[j].indx then And(a[i].bits[w], Not(b[j].bits[w])) else a[i].bits[w]
  {
    hide And, Not;
  }

  lemma MergeConsCompl(a: seq<Block>, i: nat, b: seq<Block>, j: nat)
    requires Canonical(a) && Sized(b) && i < |a| && j <= |b| && (j < |b| ==> a[i].indx <= b[j].indx)
    ensures |RawMerge(AndComplOp, a, i, b, j)| == |RawMerge(AndComplOp, a, i + 1, b, j)| + 1
  {
    hide RawMerge, WordsOp;
    NothingComputed();
    if j < |b| && a[i].indx == b[j].indx {
      StepBoth(AndComplOp, a, i, b, j, []);
      StepRight(AndComplOp, a, i + 1, b, j, []);
    } else {
      StepLeft(AndComplOp, a, i, b, j, []);
    }
  }

  lemma {:induction false} MergeSkipTo(a: seq<Block>, i: nat, b: seq<Block>, j: nat, k: nat)
    requires Sized(a) && Sized(b) && i < |a| && j <= k <= |b|
    requires forall m :: j <= m < k ==> b[m].indx < a[i].indx
    ensures RawMerge(AndComplOp, a, i, b, j) == RawMerge(AndComplOp, a, i, b, k)
    decreases k - j
  {
    hide RawMerge;
    if j < k {
      MergeSkip(AndComplOp, a, i, b, j);
      MergeSkipTo(a, i, b, j + 1, k);
    }
  }

  lemma PlacedLast(cur: Block, wordNo: nat, bitNo: nat)
    requires |cur.bits| == ELEMENT_WORDS && wordNo == ELEMENT_WORDS - 1
    ensures Placed(cur, wordNo, ZERO, bitNo)
  {}

  lemma ShapeOf(cur: Block, later: seq<Block>)
    requires Queue(cur, later)
    ensures |cur.bits| == ELEMENT_WORDS
  {}

  lemma FirstBit(indx: nat)
    ensures indx * ELEMENT_BITS == Number(indx, 0, 0)
  {}

  /** Rounding up to the word boundary. We might have just iterated past the last bit of the word. */
  method Rounded(ghost cur: Block, ghost later: seq<Block>, ghost wordNo: nat, bitNo: nat) returns (bitNo': nat)
    requires Placed(cur, wordNo, ZERO, bitNo)
    ensures wordNo + 1 <= ELEMENT_WORDS
    ensures wordNo + 1 < ELEMENT_WORDS ==> bitNo' == Number(cur.indx, wordNo + 1, 0)
    ensures Left(cur, later, wordNo, ZERO, bitNo) == LeftFrom(cur, later, wordNo + 1)
  {
    hide Left, LeftFrom;
    WordDone(cur, later, wordNo, bitNo);
    bitNo' := (bitNo + WORD_BITS - 1) / WORD_BITS * WORD_BITS;
    if wordNo + 1 < ELEMENT_WORDS {
      RoundUp(cur.indx * ELEMENT_WORDS + wordNo, bitNo);
    }
  }

  lemma PlacedBelow(cur: Block, wordNo: nat, bits: Word, bitNo: nat)
    requires Placed(cur, wordNo, bits, bitNo) && bits != ZERO
    ensures bitNo < Number(cur.indx, wordNo, 0) + WORD_BITS
  {}

  /** The members from a start bit on are those of the first block not before it, and of the later ones. */
  lemma StartAt(bs: seq<Block>, k: nat, startBit: nat)
    requires Canonical(bs) && k <= |bs|
    requires forall m :: 0 <= m < k ==> bs[m].indx < startBit / ELEMENT_BITS
    requires k < |bs| ==> startBit / ELEMENT_BITS <= bs[k].indx
    ensures k < |bs| ==> Queue(bs[k], bs[k + 1..])
    ensures From(Members(bs), startBit) == if k == |bs| then iset{} else
              FromBit(bs[k], bs[k + 1..], StartBit(bs[k].indx, startBit))
  {
    hide BitOf;
    forall x: nat
      ensures In(bs, x) && startBit <= x <==> In(bs[k..], x) && startBit <= x
    {
      assert bs == bs[..k] + bs[k..];
      InConcat(bs[..k], bs[k..], x);
      if In(bs[..k], x) {
        var m :| 0 <= m < k && InBlock(bs[..k][m], x);
      }
    }
    if k < |bs| {
      forall x: nat ensures In(bs[k..], x) <==> InBlock(bs[k], x) || In(bs[k + 1..], x) {
        InTail(bs, k, x);
      }
    }
  }

  lemma ZeroBlock(start: nat)
    ensures Queue(Block(0, ZEROS), []) && FromBit(Block(0, ZEROS), [], start) == iset{}
  {
    hide BitOf;
    forall x: nat ensures !BitOf(ZEROS, x) { NoBitInZeros(x); }
  }

  // ---- the loops EXECUTE_IF_SET_IN_BITMAP, EXECUTE_IF_AND_IN_BITMAP and EXECUTE_IF_AND_COMPL_IN_BITMAP ----

  predicate Increasing(s: seq<nat>) {
    forall i, j :: 0 <= i < j < |s| ==> s[i] < s[j]
  }

  /** The numbers visited so far are in order, in front of those left, and make up the target with them. */
  ghost predicate Visiting(visited: seq<nat>, left: iset<nat>, target: iset<nat>) {
    && Increasing(visited)
    && (forall x: nat :: x in target <==> x in visited || x in left)
    && (forall k, x: nat :: 0 <= k < |visited| && x in left ==> visited[k] < x)
  }

  lemma VisitNext(visited: seq<nat>, left: iset<nat>, target: iset<nat>, x: nat)
    requires Visiting(visited, left, target) && x in left && forall y: nat :: y in left ==> x <= y
    ensures Visiting(visited + [x], left - iset{x}, target)
  {}

  lemma VisitAll(visited: seq<nat>, target: iset<nat>)
    requires Visiting(visited, iset{}, target)
    ensures Increasing(visited) && forall x: nat :: x in visited <==> x in target
  {}

  lemma VisitNone(target: iset<nat>)
    ensures Visiting([], target, target)
  {}

  function Count(visited: seq<nat>): nat { if visited == [] then 0 else visited[|visited| - 1] + 1 }

  /** All members are below some bound, so the loops end. */
  function Bound(bs: seq<Block>): nat { if bs == [] then 0 else (bs[|bs| - 1].indx + 1) * ELEMENT_BITS }

  lemma Bounded(bs: seq<Block>, s: iset<nat>, startBit: nat, x: nat)
    requires Canonical(bs) && s <= Members(bs) && x in From(s, startBit)
    ensures x < Bound(bs)
  {
    hide BitOf;
    assert In(bs, x);
    NumberOf(x);
  }

  lemma CountGrows(visited: seq<nat>, left: iset<nat>, target: iset<nat>, x: nat)
    requires Visiting(visited, left, target) && x in left
    ensures Count(visited) <= x && x in target
  {}

  /** Every member from a start bit on is visited once, in increasing order. */
  method ExecuteIfSet(head: Bitmap, startBit: nat, zero: Element) returns (visited: seq<nat>)
    requires head.Valid() && zero !in head.elems && ZeroBits(zero)
    ensures Increasing(visited) && forall x: nat :: x in visited <==> x in Members(head.blocks) && startBit <= x
  {
    hide Bitmap.Linked, Bitmap.Holding, Bitmap.Node, Bitmap.Links, Canonical, Members, BitmapIterator.Ready, BitmapIterator.Rest,
      BitmapIterator.InSet, Visiting, Odd, Bound;
    var bi := new BitmapIterator(zero);
    ghost var target := From(Members(head.blocks), startBit);
    var bitNo := bi.SetInit(head, startBit);
    visited := [];
    VisitNone(target);
    while true
      invariant bi.InSet(head) && bi.Ready(bitNo) && Visiting(visited, bi.Rest(bitNo), target)
      decreases Bound(head.blocks) - Count(visited)
    {
      var found;
      found, bitNo := bi.IterSet(head, bitNo);
      if !found { break; }
      CountGrows(visited, bi.Rest(bitNo), target, bitNo);
      Bounded(head.blocks, Members(head.blocks), startBit, bitNo);
      VisitNext(visited, bi.Rest(bitNo), target, bitNo);
      visited := visited + [bitNo];
      bitNo := bi.Next(bitNo);
    }
    VisitAll(visited, target);
  }

  /** The same for the intersection of two bitmaps. */
  method ExecuteIfAnd(a: Bitmap, b: Bitmap, startBit: nat, zero: Element) returns (visited: seq<nat>)
    requires a.Valid() && b.Valid() && zero !in a.elems && zero !in b.elems && ZeroBits(zero)
    ensures Increasing(visited) && forall x: nat :: x in visited <==> x in (Members(a.blocks) * Members(b.blocks)) && startBit <= x
  {
    hide Bitmap.Linked, Bitmap.Holding, Bitmap.Node, Bitmap.Links, Canonical, Members, BitmapIterator.Ready, BitmapIterator.Rest,
      BitmapIterator.InAnd, Visiting, Odd, Bound;
    var bi := new BitmapIterator(zero);
    ghost var target := From((Members(a.blocks) * Members(b.blocks)), startBit);
    var bitNo := bi.AndInit(a, b, startBit);
    visited := [];
    VisitNone(target);
    while true
      invariant bi.InAnd(a, b) && bi.Ready(bitNo) && Visiting(visited, bi.Rest(bitNo), target) && bi.Same()
      decreases Bound(a.blocks) - Count(visited)
    {
      var found;
      found, bitNo := bi.IterAnd(a, b, bitNo);
      if !found { break; }
      CountGrows(visited, bi.Rest(bitNo), target, bitNo);
      Bounded(a.blocks, (Members(a.blocks) * Members(b.blocks)), startBit, bitNo);
      VisitNext(visited, bi.Rest(bitNo), target, bitNo);
      visited := visited + [bitNo];
      bitNo := bi.Next(bitNo);
    }
    VisitAll(visited, target);
  }

  /** The same for the members of one bitmap that are not in another. */
  method ExecuteIfAndCompl(a: Bitmap, b: Bitmap, startBit: nat, zero: Element) returns (visited: seq<nat>)
    requires a.Valid() && b.Valid() && zero !in a.elems && ZeroBits(zero)
    ensures Increasing(visited) && forall x: nat :: x in visited <==> x in (Members(a.blocks) - Members(b.blocks)) && startBit <= x
  {
    hide Bitmap.Linked, Bitmap.Holding, Bitmap.Node, Bitmap.Links, Canonical, Members, BitmapIterator.Ready, BitmapIterator.Rest,
      BitmapIterator.InAndCompl, Visiting, Odd, Bound;
    var bi := new BitmapIterator(zero);
    ghost var target := From((Members(a.blocks) - Members(b.blocks)), startBit);
    var bitNo := bi.AndComplInit(a, b, startBit);
    visited := [];
    VisitNone(target);
    while true
      invariant bi.InAndCompl(a, b) && bi.Ready(bitNo) && Visiting(visited, bi.Rest(bitNo), target)
      decreases Bound(a.blocks) - Count(visited)
    {
      var found;
      found, bitNo := bi.IterAndCompl(a, b, bitNo);
      if !found { break; }
      CountGrows(visited, bi.Rest(bitNo), target, bitNo);
      Bounded(a.blocks, (Members(a.blocks) - Members(b.blocks)), startBit, bitNo);
      VisitNext(visited, bi.Rest(bitNo), target, bitNo);
      visited := visited + [bitNo];
      bitNo := bi.Next(bitNo);
    }
    VisitAll(visited, target);
  }
}
