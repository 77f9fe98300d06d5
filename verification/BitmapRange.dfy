/** bitmap_clear_range: clearing a run of bits, with masks for the partial words at its two ends. */
module BitmapRange {
  import opened Words
  import opened Blocks
  import opened Obstacks
  import opened Bitmaps
  import opened BitmapBits

  // ---- the words and masks at the two ends, for the element with index indx ----

  function FirstWord(indx: nat, start: nat): nat {
    if indx * ELEMENT_BITS <= start then (start - indx * ELEMENT_BITS) / WORD_BITS else 0
  }

  function FirstMask(indx: nat, start: nat): Word {
    if indx * ELEMENT_BITS <= start then Not(Below(start % WORD_BITS)) else Not(ZERO)
  }

  function LastWord(indx: nat, end: nat): nat {
    if indx * ELEMENT_BITS + ELEMENT_BITS <= end then ELEMENT_WORDS - 1
    else if indx * ELEMENT_BITS <= end then (end - indx * ELEMENT_BITS) / WORD_BITS else 0
  }

  function LastMask(indx: nat, end: nat): Word {
    if indx * ELEMENT_BITS + ELEMENT_BITS <= end then Not(ZERO) else Below(end % WORD_BITS)
  }

  /** The range [start, end) reaches into the element. */
  predicate Reaches(indx: nat, start: nat, end: nat) {
    start <= end && start / ELEMENT_BITS <= indx && indx * ELEMENT_BITS < end
  }

  lemma FirstMaskBit(indx: nat, start: nat, end: nat, w: nat, i: nat)
    requires Reaches(indx, start, end) && w < ELEMENT_WORDS && i < WORD_BITS
    ensures FirstWord(indx, start) < ELEMENT_WORDS
    ensures start <= Number(indx, w, i) <==>
      w > FirstWord(indx, start) || (w == FirstWord(indx, start) && Bit(FirstMask(indx, start), i))
  {
    hide Bit, Not, Below;
    BitNot(Below(start % WORD_BITS), i);
    BitBelow(start % WORD_BITS, i);
    BitNot(ZERO, i);
    BitZero(i);
    if indx * ELEMENT_BITS <= start {
      SameRemainder(indx, start - indx * ELEMENT_BITS);
      LessByParts(w, i, start - indx * ELEMENT_BITS);
    }
  }

  lemma LastMaskBit(indx: nat, start: nat, end: nat, w: nat, i: nat)
    requires Reaches(indx, start, end) && w < ELEMENT_WORDS && i < WORD_BITS
    ensures LastWord(indx, end) < ELEMENT_WORDS
    ensures Number(indx, w, i) < end <==>
      w < LastWord(indx, end) || (w == LastWord(indx, end) && Bit(LastMask(indx, end), i))
  {
    hide Bit, Not, Below;
    BitBelow(end % WORD_BITS, i);
    BitNot(ZERO, i);
    BitZero(i);
    if end < indx * ELEMENT_BITS + ELEMENT_BITS {
      SameRemainder(indx, end - indx * ELEMENT_BITS);
      LessByParts(w, i, end - indx * ELEMENT_BITS);
    }
  }

  lemma SameRemainder(indx: nat, d: nat)
    ensures (indx * ELEMENT_BITS + d) % WORD_BITS == d % WORD_BITS
  {}

  lemma LessByParts(w: nat, i: nat, d: nat)
    requires i < WORD_BITS
    ensures w * WORD_BITS + i < d <==> w < d / WORD_BITS || (w == d / WORD_BITS && i < d % WORD_BITS)
  {}

  lemma WordOrder(indx: nat, start: nat, end: nat)
    requires Reaches(indx, start, end)
    ensures FirstWord(indx, start) <= LastWord(indx, end) < ELEMENT_WORDS
  {}

  predicate Within(x: nat, start: nat, end: nat) { start <= x < end }

  ghost function Range(start: nat, end: nat): iset<nat> {
    iset x: nat | Within(x, start, end)
  }

  /** Word w of the element once the range has been cleared in it. */
  function ClearedWord(bits: seq<Word>, indx: nat, start: nat, end: nat, w: nat): Word
    requires |bits| == ELEMENT_WORDS && w < ELEMENT_WORDS
  {
    var f, l := FirstWord(indx, start), LastWord(indx, end);
    if w < f || l < w then bits[w]
    else if f == l then And(bits[w], Not(And(FirstMask(indx, start), LastMask(indx, end))))
    else if w == f then And(bits[w], Not(FirstMask(indx, start)))
    else if w == l then And(bits[w], Not(LastMask(indx, end)))
    else ZERO
  }

  lemma ClearedWordBit(bits: seq<Word>, indx: nat, start: nat, end: nat, w: nat, i: nat)
    requires |bits| == ELEMENT_WORDS && w < ELEMENT_WORDS && i < WORD_BITS && Reaches(indx, start, end)
    ensures Bit(ClearedWord(bits, indx, start, end, w), i) <==>
      Bit(bits[w], i) && !(start <= Number(indx, w, i) < end)
  {
    hide Bit, Not, And, FirstMask, LastMask, FirstWord, LastWord, Number;
    FirstMaskBit(indx, start, end, w, i);
    LastMaskBit(indx, start, end, w, i);
    WordOrder(indx, start, end);
    var fm, lm := FirstMask(indx, start), LastMask(indx, end);
    BitAnd(fm, lm, i);
    BitNot(And(fm, lm), i);
    BitNot(fm, i);
    BitNot(lm, i);
    BitAnd(bits[w], Not(And(fm, lm)), i);
    BitAnd(bits[w], Not(fm), i);
    BitAnd(bits[w], Not(lm), i);
    BitZero(i);
  }

  function ClearedBits(bits: seq<Word>, indx: nat, start: nat, end: nat): (r: seq<Word>)
    requires |bits| == ELEMENT_WORDS
    ensures |r| == ELEMENT_WORDS
  {
    [ClearedWord(bits, indx, start, end, 0), ClearedWord(bits, indx, start, end, 1)]
  }

  lemma ClearedBitsOf(bits: seq<Word>, indx: nat, start: nat, end: nat, x: nat)
    requires |bits| == ELEMENT_WORDS && Reaches(indx, start, end) && x / ELEMENT_BITS == indx
    ensures BitOf(ClearedBits(bits, indx, start, end), x) <==> BitOf(bits, x) && !(start <= x < end)
  {
    hide Bit, ClearedWord;
    NumberOf(x);
    ClearedWordBit(bits, indx, start, end, x / WORD_BITS % ELEMENT_WORDS, x % WORD_BITS);
  }

  // ---- the list: blocks before i have been dealt with, those from i on are as before ----

  ghost predicate Cleared(bs: seq<Block>, now: seq<Block>, i: nat, m: nat, start: nat, end: nat) {
    && i <= |now| && m <= |bs| && Canonical(bs) && Canonical(now) && now[i..] == bs[m..]
    && (m < |bs| ==> start / ELEMENT_BITS <= bs[m].indx)
    && (forall x: nat :: In(now[..i], x) <==> In(bs[..m], x) && !(start <= x < end))
  }

  lemma ClearedStart(bs: seq<Block>, m: nat, start: nat, end: nat)
    requires Canonical(bs) && m <= |bs|
    requires forall n :: 0 <= n < m ==> bs[n].indx < start / ELEMENT_BITS
    requires m < |bs| ==> start / ELEMENT_BITS <= bs[m].indx
    ensures Cleared(bs, bs, m, m, start, end)
  {
    hide BitOf;
  }

  lemma InUpTo(bs: seq<Block>, m: nat, x: nat)
    requires m < |bs|
    ensures In(bs[..m + 1], x) <==> In(bs[..m], x) || InBlock(bs[m], x)
  {
    hide InBlock;
    assert bs[..m + 1] == bs[..m] + [bs[m]];
    InConcat(bs[..m], [bs[m]], x);
    InOne(bs[m], x);
  }

  lemma ClearedAt(bs: seq<Block>, now: seq<Block>, i: nat, m: nat, start: nat, end: nat)
    requires Cleared(bs, now, i, m, start, end)
    ensures i <= |now| && m <= |bs| && |now| - i == |bs| - m && Sorted(now)
    ensures i < |now| ==> now[i] == bs[m] && |bs[m].bits| == ELEMENT_WORDS && start / ELEMENT_BITS <= bs[m].indx
  {
    assert i < |now| ==> now[i] == now[i..][0];
  }

  /** An element in which nothing is left is freed. */
  lemma ClearedDrop(bs: seq<Block>, now: seq<Block>, i: nat, m: nat, start: nat, end: nat)
    requires Cleared(bs, now, i, m, start, end) && i < |now| && m < |bs|
    requires forall x: nat :: InBlock(bs[m], x) ==> start <= x < end
    ensures Cleared(bs, Without(now, i), i, m + 1, start, end)
  {
    hide InBlock, In;
    WithoutShape(now, i);
    assert Without(now, i)[i..] == now[i + 1..];
    assert now[i + 1..] == bs[m + 1..];
    assert Without(now, i)[..i] == now[..i];
    forall x: nat ensures In(bs[..m + 1], x) <==> In(bs[..m], x) || InBlock(bs[m], x) {
      InUpTo(bs, m, x);
    }
  }

  /** An element in which something is left is kept. */
  lemma ClearedKeep(bs: seq<Block>, now: seq<Block>, i: nat, m: nat, start: nat, end: nat, b: Block)
    requires Cleared(bs, now, i, m, start, end) && i < |now| && m < |bs|
    requires b.indx == bs[m].indx && |b.bits| == ELEMENT_WORDS && b.bits != ZEROS
    requires forall x: nat :: InBlock(b, x) <==> InBlock(bs[m], x) && !(start <= x < end)
    ensures Cleared(bs, now[i := b], i + 1, m + 1, start, end)
  {
    hide InBlock, In;
    assert now[i] == now[i..][0] == bs[m];
    var n := now[i := b];
    assert n[i + 1..] == now[i + 1..] == bs[m + 1..];
    assert n[..i + 1][..i] == now[..i] && n[..i] == now[..i];
    var ns, olds := n[..i + 1], bs[..m + 1];
    forall x: nat ensures In(ns, x) <==> In(olds, x) && !(start <= x < end) {
      InUpTo(bs, m, x);
      InUpTo(n, i, x);
    }
  }

  /** Beyond the last element the range reaches, nothing is to be cleared. */
  lemma ClearedEnd(bs: seq<Block>, now: seq<Block>, i: nat, m: nat, start: nat, end: nat)
    requires Cleared(bs, now, i, m, start, end)
    requires m < |bs| ==> end <= bs[m].indx * ELEMENT_BITS
    ensures Members(now) == Members(bs) - Range(start, end)
  {
    hide BitOf, In;
    assert now == now[..i] + now[i..];
    assert bs == bs[..m] + bs[m..];
    forall x: nat ensures In(now, x) <==> In(bs, x) && !(start <= x < end) {
      InConcat(now[..i], now[i..], x);
      InConcat(bs[..m], bs[m..], x);
      if m < |bs| && x < end { NotInAbove(bs[m..], x); }
      if m == |bs| { NotInAbove(bs[m..], x); }
    }
  }

  // ---- the procedure ----

  /** The loop that clears the words strictly between the first and the last one touched. */
  method ZeroWords(bits: seq<Word>, from: nat, to: nat) returns (words: seq<Word>)
    requires from <= to <= |bits|
    ensures |words| == |bits|
    ensures forall n :: 0 <= n < |bits| ==> words[n] == if from <= n < to then ZERO else bits[n]
  {
    words := bits;
    for i := from to to
      invariant |words| == |bits|
      invariant forall n :: 0 <= n < |bits| ==> words[n] == if from <= n < i then ZERO else bits[n]
    {
      words := words[i := ZERO];
    }
  }

  /** Clears the range in the words of the element with index indx, which it does not cover entirely. */
  method MaskWords(bits: seq<Word>, indx: nat, start: nat, end: nat) returns (words: seq<Word>)
    requires |bits| == ELEMENT_WORDS && Reaches(indx, start, end)
    ensures words == ClearedBits(bits, indx, start, end)
  {
    hide And, Not, Below;
    WordOrder(indx, start, end);
    var eltStartBit := indx * ELEMENT_BITS;
    var eltEndBitPlus1 := eltStartBit + ELEMENT_BITS;
    var firstWord, firstMask := 0, Not(ZERO);
    if eltStartBit <= start {
      // The first bit to turn off is somewhere inside this element.
      firstWord := (start - eltStartBit) / WORD_BITS;
      firstMask := Not(Below(start % WORD_BITS));
    }
    var lastWord, lastMask := ELEMENT_WORDS - 1, Not(ZERO);
    if !(eltEndBitPlus1 <= end) {
      // The last bit to turn off is inside this element.
      lastWord := (end - eltStartBit) / WORD_BITS;
      lastMask := Below(end % WORD_BITS);
    }
    words := bits;
    if firstWord == lastWord {
      var mask := And(firstMask, lastMask);
      words := words[firstWord := And(words[firstWord], Not(mask))];
    } else {
      words := words[firstWord := And(words[firstWord], Not(firstMask))];
      words := ZeroWords(words, firstWord + 1, lastWord);
      words := words[lastWord := And(words[lastWord], Not(lastMask))];
    }
    assert words == [words[0], words[1]];
  }

  /** The check whether there are any bits left. */
  method AllZero(words: seq<Word>) returns (clear: bool)
    requires |words| == ELEMENT_WORDS
    ensures clear <==> words == ZEROS
  {
    clear := true;
    for i := 0 to ELEMENT_WORDS
      invariant clear && forall n :: 0 <= n < i ==> words[n] == ZERO
    {
      if words[i] != ZERO {
        clear := false;
        break;
      }
    }
    assert words == [words[0], words[1]];
  }

  /** One turn of the loop: the element at position k is freed, or loses the bits of the range. */
  method ClearInElement(head: Bitmap, elt: Element, start: nat, end: nat, ghost bs: seq<Block>, ghost k: nat, ghost m: nat)
    returns (nextElt: Element?, ghost k': nat)
    requires head.obstack.Valid() && head.Links() && head.CurrentOk() && Cleared(bs, head.blocks, k, m, start, end)
    requires k < |head.elems| && head.elems[k] == elt && Reaches(elt.indx, start, end)
    modifies head, head.obstack, head.Elements()
    ensures head.obstack.Valid() && head.Links() && head.CurrentOk() && head.Conserves()
    ensures m < |bs| && Cleared(bs, head.blocks, k', m + 1, start, end)
    ensures k' <= |head.elems| && nextElt == Nth(head.elems, k')
  {
    hide Bitmap.Linked, Bitmap.Holding, Bitmap.Node, Bitmap.Links, Obstack.Valid, Obstack.Linked, Cleared,
      Sorted, ClearedBits, BitOf, Without;
    head.Ends();
    head.NodeAt(k);
    ClearedAt(bs, head.blocks, k, m, start, end);
    nextElt := elt.next;
    var eltStartBit := elt.indx * ELEMENT_BITS;
    var eltEndBitPlus1 := eltStartBit + ELEMENT_BITS;
    k' := k;
    if eltStartBit >= start && eltEndBitPlus1 <= end {
      // Get rid of the entire element.
      ClearedDrop(bs, head.blocks, k, m, start, end);
      head.ElementFree(elt, k);
    } else {
      ghost var b := Block(elt.indx, ClearedBits(elt.bits, elt.indx, start, end));
      ClearedBlock(bs[m], start, end);
      head.Apart();
      var words := MaskWords(elt.bits, elt.indx, start, end);
      head.WriteBits(elt, k, words);
      var clear := AllZero(words);
      if clear {
        ClearedDrop(bs, old(head.blocks), k, m, start, end);
        WithoutReplaced(old(head.blocks), k, b);
        head.ElementFree(elt, k);
      } else {
        ClearedKeep(bs, old(head.blocks), k, m, start, end, b);
        k' := k + 1;
      }
    }
    NthWithout(old(head.elems), k);
  }

  lemma NthWithout(es: seq<Element>, k: nat)
    requires k < |es|
    ensures |es[..k] + es[k + 1..]| == |es| - 1 && Nth(es[..k] + es[k + 1..], k) == Nth(es, k + 1)
  {}

  /** What is left of one block. */
  lemma ClearedBlock(b: Block, start: nat, end: nat)
    requires |b.bits| == ELEMENT_WORDS && Reaches(b.indx, start, end)
    ensures var r := Block(b.indx, ClearedBits(b.bits, b.indx, start, end));
      && (forall x: nat :: InBlock(r, x) <==> InBlock(b, x) && !(start <= x < end))
      && (r.bits == ZEROS ==> forall x: nat :: InBlock(b, x) ==> start <= x < end)
  {
    hide BitOf, ClearedBits;
    var r := Block(b.indx, ClearedBits(b.bits, b.indx, start, end));
    forall x: nat ensures InBlock(r, x) <==> InBlock(b, x) && !(start <= x < end) {
      if x / ELEMENT_BITS == b.indx { ClearedBitsOf(b.bits, b.indx, start, end, x); }
    }
    if r.bits == ZEROS {
      forall x: nat | InBlock(b, x) ensures start <= x < end {
        NoBitInZeros(x);
      }
    }
  }

  /** The first element to look at: where bitmap_find_bit leaves `current`, or the next one if that is before
      the first index. */
  method FindStart(head: Bitmap, start: nat) returns (elt: Element?, ghost k: nat)
    requires head.Valid()
    modifies head`current, head`indx
    ensures head.Valid()
    ensures k <= |head.elems| == |head.blocks| && elt == Nth(head.elems, k)
    ensures k > 0 ==> head.blocks[k - 1].indx < start / ELEMENT_BITS
    ensures k < |head.blocks| ==> start / ELEMENT_BITS <= head.blocks[k].indx
  {
    hide Bitmap.Linked, Bitmap.Holding, Bitmap.Node, Bitmap.Links, Sized, Sorted, NonZero;
    head.Ends();
    var firstIndex := start / ELEMENT_BITS;
    elt, k := FindBit(head, start);
    if elt == null {
      if head.current == null {
        k := 0;
        return;
      }
      head.NodeAt(k);
      if head.indx < firstIndex {
        elt, k := head.current.next, k + 1;
      } else {
        elt := head.current;
      }
    }
  }

  /** bitmap_clear_range. The source computes start + count - 1 on unsigned numbers, so both may not be 0. */
  method ClearRange(head: Bitmap, start: nat, count: nat)
    requires head.Valid() && head.obstack.Valid()
    requires start + count > 0
    modifies head, head.obstack, head.Elements()
    ensures head.Valid() && head.obstack.Valid() && head.Conserves()
    ensures Members(head.blocks) == Members(old(head.blocks)) - Range(start, start + count)
  {
    hide Bitmap.Linked, Bitmap.Holding, Bitmap.Node, Bitmap.Links, Obstack.Valid, Obstack.Linked, Both, Cleared,
      Sized, Sorted, NonZero, Members;
    var endBitPlus1 := start + count;
    var lastIndex := (endBitPlus1 - 1) / ELEMENT_BITS;
    ghost var bs, m := head.blocks, 0;
    ghost var k: nat;
    var elt;
    elt, k := FindStart(head, start);
    if elt == null {
      NothingToClear(bs, start, endBitPlus1);
      return;
    }
    m := k;
    ClearedFrom(bs, k, start, endBitPlus1);
    while elt != null && elt.indx <= lastIndex
      invariant head.obstack.Valid() && head.Links() && head.CurrentOk() && head.Conserves()
      invariant Cleared(bs, head.blocks, k, m, start, endBitPlus1)
      invariant k <= |head.elems| == |head.blocks| && elt == Nth(head.elems, k) && m <= |bs|
      decreases |bs| - m
    {
      head.NodeAt(k);
      ClearedAt(bs, head.blocks, k, m, start, endBitPlus1);
      elt, k := ClearInElement(head, elt, start, endBitPlus1, bs, k, m);
      m := m + 1;
      ClearedAt(bs, head.blocks, k, m, start, endBitPlus1);
      head.Ends();
    }
    ClearedAt(bs, head.blocks, k, m, start, endBitPlus1);
    ClearedCanonical(bs, head.blocks, k, m, start, endBitPlus1);
    if elt != null {
      head.NodeAt(k);
      head.current := elt;
      head.indx := head.current.indx;
      assert head.elems[k] == elt;
    }
    ClearedEnd(bs, head.blocks, k, m, start, endBitPlus1);
  }

  lemma ClearedCanonical(bs: seq<Block>, now: seq<Block>, i: nat, m: nat, start: nat, end: nat)
    requires Cleared(bs, now, i, m, start, end)
    ensures Canonical(now)
  {}

  /** Where the loop starts, in terms of where bitmap_find_bit has left `current`. */
  lemma ClearedFrom(bs: seq<Block>, k: nat, start: nat, end: nat)
    requires Canonical(bs) && k < |bs| && start / ELEMENT_BITS <= bs[k].indx
    requires k > 0 ==> bs[k - 1].indx < start / ELEMENT_BITS
    ensures Cleared(bs, bs, k, k, start, end)
  {
    ClearedStart(bs, k, start, end);
  }

  /** All elements are before the range. */
  lemma NothingToClear(bs: seq<Block>, start: nat, end: nat)
    requires Canonical(bs) && (|bs| > 0 ==> bs[|bs| - 1].indx < start / ELEMENT_BITS)
    ensures Members(bs) == Members(bs) - Range(start, end)
  {
    ClearedStart(bs, |bs|, start, end);
    ClearedEnd(bs, bs, |bs|, |bs|, start, end);
  }
}
