/** The contents of a bitmap, away from the heap: the sequence of (index, words) blocks its list holds,
    what set such a sequence denotes, and what each Boolean operation of bitmap.c does to it. */
module Blocks {
  import opened Words

  const ELEMENT_WORDS: nat := 2
  const ELEMENT_BITS: nat := ELEMENT_WORDS * WORD_BITS
  const ZEROS: seq<Word> := [ZERO, ZERO]

  datatype Block = Block(indx: nat, bits: seq<Word>)

  predicate Sized(bs: seq<Block>) {
    forall k :: 0 <= k < |bs| ==> |bs[k].bits| == ELEMENT_WORDS
  }

  predicate Sorted(bs: seq<Block>) {
    forall i, j :: 0 <= i < j < |bs| ==> bs[i].indx < bs[j].indx
  }

  predicate NonZero(bs: seq<Block>) {
    forall k :: 0 <= k < |bs| ==> bs[k].bits != ZEROS
  }

  predicate AtLeast(bs: seq<Block>, lo: nat) {
    forall k :: 0 <= k < |bs| ==> lo <= bs[k].indx
  }

  /** The form every operation keeps: increasing indices, no element all zero. */
  predicate Canonical(bs: seq<Block>) {
    Sized(bs) && Sorted(bs) && NonZero(bs)
  }

  // ---- the set a block sequence denotes ----

  predicate BitOf(bits: seq<Word>, x: nat)
    requires |bits| == ELEMENT_WORDS
  {
    Bit(bits[x / WORD_BITS % ELEMENT_WORDS], x % WORD_BITS)
  }

  predicate InBlock(b: Block, x: nat) {
    |b.bits| == ELEMENT_WORDS && b.indx == x / ELEMENT_BITS && BitOf(b.bits, x)
  }

  predicate In(bs: seq<Block>, x: nat) {
    exists k :: 0 <= k < |bs| && InBlock(bs[k], x)
  }

  ghost function Members(bs: seq<Block>): iset<nat> {
    iset x: nat | In(bs, x)
  }

  /** The number that bit i of word w of the element with index indx stands for. */
  function Number(indx: nat, w: nat, i: nat): nat {
    indx * ELEMENT_BITS + w * WORD_BITS + i
  }

  lemma NumberParts(indx: nat, w: nat, i: nat)
    requires w < ELEMENT_WORDS && i < WORD_BITS
    ensures var x := Number(indx, w, i);
      x / ELEMENT_BITS == indx && x / WORD_BITS % ELEMENT_WORDS == w && x % WORD_BITS == i
  {}

  lemma NumberOf(x: nat)
    ensures x == Number(x / ELEMENT_BITS, x / WORD_BITS % ELEMENT_WORDS, x % WORD_BITS)
  {}

  // ---- the Boolean operations on words, blocks and sequences ----

  datatype BoolOp = AndOp | AndComplOp | ComplAndOp | IorOp | XorOp

  predicate Holds(op: BoolOp, p: bool, q: bool) {
    match op
    case AndOp => p && q
    case AndComplOp => p && !q
    case ComplAndOp => !p && q
    case IorOp => p || q
    case XorOp => p != q
  }

  ghost function SetOp(op: BoolOp, a: iset<nat>, b: iset<nat>): iset<nat> {
    match op
    case AndOp => a * b
    case AndComplOp => a - b
    case ComplAndOp => b - a
    case IorOp => a + b
    case XorOp => (a - b) + (b - a)
  }

  function WordOp(op: BoolOp, x: Word, y: Word): Word {
    match op
    case AndOp => And(x, y)
    case AndComplOp => And(x, Not(y))
    case ComplAndOp => And(Not(x), y)
    case IorOp => Or(x, y)
    case XorOp => Xor(x, y)
  }

  function WordsOp(op: BoolOp, xs: seq<Word>, ys: seq<Word>): (r: seq<Word>)
    requires |xs| == |ys| == ELEMENT_WORDS
    ensures |r| == ELEMENT_WORDS
  {
    [WordOp(op, xs[0], ys[0]), WordOp(op, xs[1], ys[1])]
  }

  /** Whether an element present on the left only (right only) goes into the result. */
  predicate KeepsLeft(op: BoolOp) { Holds(op, true, false) }

  predicate KeepsRight(op: BoolOp) { Holds(op, false, true) }

  /** Every block the operation computes from a[i..] and b[j..], including those that come out all zero. */
  function RawMerge(op: BoolOp, a: seq<Block>, i: nat, b: seq<Block>, j: nat): seq<Block>
    requires i <= |a| && j <= |b| && Sized(a) && Sized(b)
    decreases |a| - i + |b| - j
  {
    if i == |a| && j == |b| then []
    else if j == |b| || (i < |a| && a[i].indx < b[j].indx) then
      (if KeepsLeft(op) then [a[i]] else []) + RawMerge(op, a, i + 1, b, j)
    else if i == |a| || b[j].indx < a[i].indx then
      (if KeepsRight(op) then [b[j]] else []) + RawMerge(op, a, i, b, j + 1)
    else
      [Block(a[i].indx, WordsOp(op, a[i].bits, b[j].bits))] + RawMerge(op, a, i + 1, b, j + 1)
  }

  function DropZero(bs: seq<Block>): seq<Block> {
    if bs == [] then []
    else (if bs[0].bits == ZEROS then [] else [bs[0]]) + DropZero(bs[1..])
  }

  function Merge(op: BoolOp, a: seq<Block>, b: seq<Block>): seq<Block>
    requires Sized(a) && Sized(b)
  {
    DropZero(RawMerge(op, a, 0, b, 0))
  }

  // ---- bits of a combined word ----

  lemma BitWordOp(op: BoolOp, x: Word, y: Word, i: nat)
    requires i < WORD_BITS
    ensures Bit(WordOp(op, x, y), i) <==> Holds(op, Bit(x, i), Bit(y, i))
  {
    hide And, Or, Xor, Not, Bit;
    BitNot(x, i);
    BitNot(y, i);
    BitAnd(x, y, i);
    BitAnd(x, Not(y), i);
    BitAnd(Not(x), y, i);
    BitOr(x, y, i);
    BitXor(x, y, i);
  }

  lemma BitWordsOp(op: BoolOp, xs: seq<Word>, ys: seq<Word>, x: nat)
    requires |xs| == |ys| == ELEMENT_WORDS
    ensures BitOf(WordsOp(op, xs, ys), x) <==> Holds(op, BitOf(xs, x), BitOf(ys, x))
  {
    hide WordOp, Bit;
    var w := x / WORD_BITS % ELEMENT_WORDS;
    BitWordOp(op, xs[w], ys[w], x % WORD_BITS);
  }

  lemma NoBitInZeros(x: nat)
    ensures !BitOf(ZEROS, x)
  {
    BitZero(x % WORD_BITS);
  }

  lemma SomeBitIfNonZero(b: Block)
    requires |b.bits| == ELEMENT_WORDS && b.bits != ZEROS
    ensures exists x: nat :: InBlock(b, x)
  {
    hide Bit;
    var w := if b.bits[0] != ZERO then 0 else 1;
    assert b.bits[w] != ZERO by { assert b.bits == [b.bits[0], b.bits[1]]; }
    NonZeroHasBit(b.bits[w]);
    var i :| 0 <= i < WORD_BITS && Bit(b.bits[w], i);
    NumberParts(b.indx, w, i);
    assert InBlock(b, Number(b.indx, w, i));
  }

  // ---- membership, one block at a time ----

  lemma InConcat(a: seq<Block>, b: seq<Block>, x: nat)
    ensures In(a + b, x) <==> In(a, x) || In(b, x)
  {
    hide InBlock;
    if In(a, x) {
      var k :| 0 <= k < |a| && InBlock(a[k], x);
      assert InBlock((a + b)[k], x);
    }
    if In(b, x) {
      var k :| 0 <= k < |b| && InBlock(b[k], x);
      assert InBlock((a + b)[|a| + k], x);
    }
  }

  lemma InOne(b: Block, x: nat)
    ensures In([b], x) <==> InBlock(b, x)
  {
    hide InBlock;
    if InBlock(b, x) { assert InBlock([b][0], x); }
  }

  /** In a sorted sequence only the block with index x / ELEMENT_BITS can hold x. */
  lemma InSorted(bs: seq<Block>, k: nat, x: nat)
    requires Sorted(bs) && k < |bs| && bs[k].indx == x / ELEMENT_BITS
    ensures In(bs, x) <==> InBlock(bs[k], x)
  {
    hide BitOf;
    if In(bs, x) {
      var m :| 0 <= m < |bs| && InBlock(bs[m], x);
      assert m == k;
    }
  }

  lemma InCanonical(bs: seq<Block>, k: nat, x: nat)
    requires Canonical(bs) && k < |bs| && bs[k].indx == x / ELEMENT_BITS
    ensures |bs[k].bits| == ELEMENT_WORDS
    ensures x in Members(bs) <==> BitOf(bs[k].bits, x)
  {
    InSorted(bs, k, x);
  }

  lemma NotInAbove(bs: seq<Block>, x: nat)
    requires forall k :: 0 <= k < |bs| ==> x / ELEMENT_BITS < bs[k].indx
    ensures !In(bs, x)
  {}

  // ---- DropZero ----

  lemma {:induction false} DropZeroConcat(p: seq<Block>, q: seq<Block>)
    ensures DropZero(p + q) == DropZero(p) + DropZero(q)
  {
    if p == [] {
      assert p + q == q;
    } else {
      assert (p + q)[1..] == p[1..] + q;
      DropZeroConcat(p[1..], q);
    }
  }

  lemma {:induction false} DropZeroIn(bs: seq<Block>, x: nat)
    requires Sized(bs)
    ensures In(DropZero(bs), x) <==> In(bs, x)
  {
    if bs != [] {
      DropZeroIn(bs[1..], x);
      assert bs == [bs[0]] + bs[1..];
      InConcat([bs[0]], bs[1..], x);
      InOne(bs[0], x);
      var h := if bs[0].bits == ZEROS then [] else [bs[0]];
      InConcat(h, DropZero(bs[1..]), x);
      NoBitInZeros(x);
    }
  }

  lemma {:induction false} DropZeroShape(bs: seq<Block>, lo: nat)
    requires Sized(bs) && Sorted(bs)
    requires forall k :: 0 <= k < |bs| ==> lo <= bs[k].indx
    ensures Canonical(DropZero(bs))
    ensures forall k :: 0 <= k < |DropZero(bs)| ==> lo <= DropZero(bs)[k].indx
  {
    hide DropZero, Canonical, Sorted, Sized;
    DropZeroParts(bs);
    if bs == [] {
      NoBlocks();
    } else {
      FirstBefore(bs);
      DropZeroShape(bs[1..], bs[0].indx + 1);
      if bs[0].bits != ZEROS { CanonicalCons(bs[0], DropZero(bs[1..])); }
    }
  }

  lemma DropZeroParts(bs: seq<Block>)
    ensures DropZero(bs) == if bs == [] then [] else if bs[0].bits == ZEROS then DropZero(bs[1..]) else [bs[0]] + DropZero(bs[1..])
  {}

  lemma NoBlocks()
    ensures Canonical([])
  {}

  lemma FirstBefore(bs: seq<Block>)
    requires Sized(bs) && Sorted(bs) && bs != []
    ensures Sized(bs[1..]) && Sorted(bs[1..]) && |bs[0].bits| == ELEMENT_WORDS
    ensures forall k :: 0 <= k < |bs| - 1 ==> bs[0].indx < bs[1..][k].indx
  {}

  lemma CanonicalCons(b: Block, bs: seq<Block>)
    requires Canonical(bs) && |b.bits| == ELEMENT_WORDS && b.bits != ZEROS
    requires forall k :: 0 <= k < |bs| ==> b.indx < bs[k].indx
    ensures Canonical([b] + bs)
  {}

  lemma {:induction false} DropZeroCanonical(bs: seq<Block>)
    requires NonZero(bs)
    ensures DropZero(bs) == bs
  {
    if bs != [] { DropZeroCanonical(bs[1..]); }
  }

  // ---- RawMerge ----

  lemma {:induction false} RawMergeShape(op: BoolOp, a: seq<Block>, i: nat, b: seq<Block>, j: nat, lo: nat)
    requires i <= |a| && j <= |b| && Sized(a) && Sized(b) && Sorted(a) && Sorted(b)
    requires i < |a| ==> lo <= a[i].indx
    requires j < |b| ==> lo <= b[j].indx
    ensures Sized(RawMerge(op, a, i, b, j)) && Sorted(RawMerge(op, a, i, b, j)) && AtLeast(RawMerge(op, a, i, b, j), lo)
    decreases |a| - i + |b| - j
  {
    hide KeepsLeft, KeepsRight, WordsOp;
    if i == |a| && j == |b| {
    } else if j == |b| || (i < |a| && a[i].indx < b[j].indx) {
      RawMergeShape(op, a, i + 1, b, j, a[i].indx + 1);
      ConsShape(a[i], RawMerge(op, a, i + 1, b, j), lo);
    } else if i == |a| || b[j].indx < a[i].indx {
      RawMergeShape(op, a, i, b, j + 1, b[j].indx + 1);
      ConsShape(b[j], RawMerge(op, a, i, b, j + 1), lo);
    } else {
      RawMergeShape(op, a, i + 1, b, j + 1, a[i].indx + 1);
      ConsShape(Block(a[i].indx, WordsOp(op, a[i].bits, b[j].bits)), RawMerge(op, a, i + 1, b, j + 1), lo);
    }
  }

  lemma ConsShape(c: Block, bs: seq<Block>, lo: nat)
    requires |c.bits| == ELEMENT_WORDS && Sized(bs) && Sorted(bs) && AtLeast(bs, c.indx + 1) && lo <= c.indx
    ensures Sized([c] + bs) && Sorted([c] + bs) && AtLeast([c] + bs, lo) && AtLeast(bs, lo)
    ensures [] + bs == bs
  {}

  // The steps of the merge loops: p is what has been computed so far.

  lemma StepLeft(op: BoolOp, a: seq<Block>, i: nat, b: seq<Block>, j: nat, p: seq<Block>)
    requires i < |a| && j <= |b| && Sized(a) && Sized(b) && (j == |b| || a[i].indx < b[j].indx)
    ensures p + RawMerge(op, a, i, b, j)
         == (if KeepsLeft(op) then p + [a[i]] else p) + RawMerge(op, a, i + 1, b, j)
  {}

  lemma StepRight(op: BoolOp, a: seq<Block>, i: nat, b: seq<Block>, j: nat, p: seq<Block>)
    requires i <= |a| && j < |b| && Sized(a) && Sized(b) && (i == |a| || b[j].indx < a[i].indx)
    ensures p + RawMerge(op, a, i, b, j)
         == (if KeepsRight(op) then p + [b[j]] else p) + RawMerge(op, a, i, b, j + 1)
  {}

  lemma StepBoth(op: BoolOp, a: seq<Block>, i: nat, b: seq<Block>, j: nat, p: seq<Block>)
    requires i < |a| && j < |b| && Sized(a) && Sized(b) && a[i].indx == b[j].indx
    ensures p + RawMerge(op, a, i, b, j)
         == p + [Block(a[i].indx, WordsOp(op, a[i].bits, b[j].bits))] + RawMerge(op, a, i + 1, b, j + 1)
  {}

  /** When both operands are used up, or the operation keeps nothing of the one that is not, nothing is left to compute. */
  lemma {:induction false} NothingLeft(op: BoolOp, a: seq<Block>, i: nat, b: seq<Block>, j: nat)
    requires i <= |a| && j <= |b| && Sized(a) && Sized(b)
    requires (i == |a| && (j == |b| || !KeepsRight(op))) || (j == |b| && !KeepsLeft(op))
    ensures RawMerge(op, a, i, b, j) == []
    decreases |a| - i + |b| - j
  {
    if i < |a| && j == |b| {
      NothingLeft(op, a, i + 1, b, j);
    } else if i == |a| && j < |b| {
      NothingLeft(op, a, i, b, j + 1);
    }
  }

  lemma DropZeroAppend(p: seq<Block>, b: Block)
    ensures DropZero(p + [b]) == if b.bits == ZEROS then DropZero(p) else DropZero(p) + [b]
  {
    DropZeroConcat(p, [b]);
    assert DropZero([b]) == if b.bits == ZEROS then [] else [b];
  }

  /** The last block computed came out all zero, so its index is in an element that is not kept. */
  predicate Touched(p: seq<Block>) {
    |p| > 0 && p[|p| - 1].bits == ZEROS
  }

  /** A destination that held bs now holds `now`: p has been computed, and its k nonzero blocks stored in front. */
  ghost predicate Rewritten(bs: seq<Block>, now: seq<Block>, p: seq<Block>, k: nat) {
    && k == |DropZero(p)| && k <= |now| && now[..k] == DropZero(p)
    && |bs| <= |now|
    && (forall m :: k < m < |bs| ==> now[m] == bs[m])
    && (k < |bs| && !Touched(p) ==> now[k] == bs[k])
    && (Touched(p) ==> k < |now| && now[k].indx == p[|p| - 1].indx)
  }

  /** One more block b is computed and stored at position k. */
  lemma RewriteStep(bs: seq<Block>, was: seq<Block>, now: seq<Block>, p: seq<Block>, k: nat, b: Block)
    requires Rewritten(bs, was, p, k)
    requires if k < |was| then |now| == |was| else |now| == |was| + 1
    requires forall m :: 0 <= m < |was| && m != k ==> now[m] == was[m]
    requires now[k] == b && Sized(was) && |b.bits| == ELEMENT_WORDS
    ensures Rewritten(bs, now, p + [b], if b.bits == ZEROS then k else k + 1) && Sized(now)
  {
    DropZeroAppend(p, b);
    assert now[..k] == was[..k];
    assert now[..k + 1] == now[..k] + [b];
    assert (p + [b])[|p|] == b;
  }

  /** The blocks computed, up to and including those that come out all zero. */
  lemma RawMergeGood(op: BoolOp, a: seq<Block>, b: seq<Block>)
    requires Canonical(a) && Canonical(b)
    ensures Sized(RawMerge(op, a, 0, b, 0)) && Sorted(RawMerge(op, a, 0, b, 0))
  {
    RawMergeShape(op, a, 0, b, 0, 0);
  }

  lemma SizedAt(bs: seq<Block>, k: nat)
    requires Sized(bs) && k < |bs|
    ensures |bs[k].bits| == ELEMENT_WORDS
  {}

  lemma CanonicalAt(bs: seq<Block>, k: nat)
    requires Canonical(bs) && k < |bs|
    ensures |bs[k].bits| == ELEMENT_WORDS && bs[k].bits != ZEROS
  {}

  lemma PrefixPlusOne(bs: seq<Block>, i: nat)
    requires i < |bs|
    ensures bs[..i] + [bs[i]] == bs[..i + 1] && bs[..0] == [] && bs[..|bs|] == bs
  {}

  lemma CanonicalNil()
    ensures Canonical([])
  {}

  lemma NothingComputed()
    ensures DropZero([]) == [] && forall s: seq<Block> :: [] + s == s
  {}

  /** Whether the element at position c of a destination that held bs, overwritten by raw without its zero blocks,
      is a fit `current` after bitmap_elt_clear_from. */
  predicate CurrentSurvives(bs: seq<Block>, c: nat, raw: seq<Block>)
    requires c < |bs|
  {
    var r := DropZero(raw);
    r == [] || c < |r| || r[|r| - 1].indx < bs[c].indx || (c == |r| && Touched(raw))
  }

  lemma InTail(bs: seq<Block>, i: nat, x: nat)
    requires i < |bs|
    ensures In(bs[i..], x) <==> InBlock(bs[i], x) || In(bs[i + 1..], x)
  {
    assert bs[i..] == [bs[i]] + bs[i + 1..];
    InConcat([bs[i]], bs[i + 1..], x);
    InOne(bs[i], x);
  }

  /** Membership of the merged blocks is the Boolean combination of the memberships of the operands. */
  lemma {:induction false} RawMergeIn(op: BoolOp, a: seq<Block>, i: nat, b: seq<Block>, j: nat, x: nat)
    requires i <= |a| && j <= |b| && Sized(a) && Sized(b) && Sorted(a) && Sorted(b)
    ensures In(RawMerge(op, a, i, b, j), x) <==> Holds(op, In(a[i..], x), In(b[j..], x))
    decreases |a| - i + |b| - j
  {
    hide BitOf, In, WordsOp;
    if i == |a| && j == |b| {
      NotInAbove([], x);
    } else if j == |b| || (i < |a| && a[i].indx < b[j].indx) {
      var h := if KeepsLeft(op) then [a[i]] else [];
      InConcat(h, RawMerge(op, a, i + 1, b, j), x);
      InOne(a[i], x);
      NotInAbove([], x);
      InTail(a, i, x);
      RawMergeIn(op, a, i + 1, b, j, x);
      if InBlock(a[i], x) {
        NotInAbove(a[i + 1..], x);
        NotInAbove(b[j..], x);
      }
    } else if i == |a| || b[j].indx < a[i].indx {
      var h := if KeepsRight(op) then [b[j]] else [];
      InConcat(h, RawMerge(op, a, i, b, j + 1), x);
      InOne(b[j], x);
      NotInAbove([], x);
      InTail(b, j, x);
      RawMergeIn(op, a, i, b, j + 1, x);
      if InBlock(b[j], x) {
        NotInAbove(a[i..], x);
        NotInAbove(b[j + 1..], x);
      }
    } else {
      var c := Block(a[i].indx, WordsOp(op, a[i].bits, b[j].bits));
      InConcat([c], RawMerge(op, a, i + 1, b, j + 1), x);
      InOne(c, x);
      InTail(a, i, x);
      InTail(b, j, x);
      BitWordsOp(op, a[i].bits, b[j].bits, x);
      RawMergeIn(op, a, i + 1, b, j + 1, x);
      if a[i].indx == x / ELEMENT_BITS {
        NotInAbove(a[i + 1..], x);
        NotInAbove(b[j + 1..], x);
      }
    }
  }

  // The `changed` flag: set as soon as what is stored is no longer what was there.

  lemma ChangeStep(bs: seq<Block>, p: seq<Block>, b: Block)
    requires b.bits != ZEROS
    ensures DropZero(p + [b]) <= bs <==>
              DropZero(p) <= bs && |DropZero(p)| < |bs| && bs[|DropZero(p)|] == b
  {
    hide DropZero;
    DropZeroAppend(p, b);
    PrefixSnoc(DropZero(p), b, bs);
  }

  lemma PrefixSnoc<T>(d: seq<T>, e: T, s: seq<T>)
    ensures d + [e] <= s <==> d <= s && |d| < |s| && s[|d|] == e
  {
    if |d| < |s| {
      assert s[..|d| + 1] == s[..|d|] + [s[|d|]];
    }
  }

  lemma ChangeStart(bs: seq<Block>)
    ensures DropZero([]) <= bs
  {}

  lemma OrNonZero(x: seq<Word>, y: seq<Word>)
    requires |x| == |y| == ELEMENT_WORDS && x != ZEROS
    ensures WordsOp(IorOp, x, y) != ZEROS
  {
    hide Or;
    OrZero(x[0], y[0]);
    OrZero(x[1], y[1]);
    assert x == [x[0], x[1]];
  }

  /** What is kept after the rewriting. */
  lemma RewriteEnd(bs: seq<Block>, now: seq<Block>, p: seq<Block>, k: nat)
    requires Rewritten(bs, now, p, k)
    ensures k <= |now| && now[..k] == DropZero(p)
  {}

  /** The comparison bitmap_elt_clear_from makes with `current` at position c, in terms of what was there before. */
  lemma RewriteCurrent(bs: seq<Block>, now: seq<Block>, p: seq<Block>, k: nat, c: nat)
    requires Rewritten(bs, now, p, k) && Sized(p) && Sorted(p) && c < |bs|
    ensures k < |now| && k > 0 ==>
              (CurrentSurvives(bs, c, p) <==> c < k || now[k - 1].indx < now[c].indx)
    ensures k == |now| || k == 0 ==> CurrentSurvives(bs, c, p)
  {
    if k > 0 {
      DropZeroShape(p, 0);
      assert now[k - 1] == DropZero(p)[k - 1];
      if Touched(p) {
        assert p == p[..|p| - 1] + [p[|p| - 1]];
        DropZeroAppend(p[..|p| - 1], p[|p| - 1]);
        DropZeroBelow(p[..|p| - 1], p[|p| - 1].indx);
      }
    }
  }

  lemma {:induction false} DropZeroBelow(p: seq<Block>, hi: nat)
    requires forall m :: 0 <= m < |p| ==> p[m].indx < hi
    ensures forall m :: 0 <= m < |DropZero(p)| ==> DropZero(p)[m].indx < hi
  {
    if p != [] { DropZeroBelow(p[1..], hi); }
  }

  lemma StartRewrite(bs: seq<Block>)
    requires Sized(bs)
    ensures Rewritten(bs, bs, [], 0) && Sized(bs)
  {}

  // ---- the two main facts: meaning, and uniqueness of the canonical form ----

  /** The merged list denotes the Boolean combination of the two sets, and is canonical again. */
  lemma MergeMeaning(op: BoolOp, a: seq<Block>, b: seq<Block>)
    requires Canonical(a) && Canonical(b)
    ensures Canonical(Merge(op, a, b))
    ensures Members(Merge(op, a, b)) == SetOp(op, Members(a), Members(b))
  {
    hide In;
    RawMergeShape(op, a, 0, b, 0, 0);
    DropZeroShape(RawMerge(op, a, 0, b, 0), 0);
    forall x: nat
      ensures In(Merge(op, a, b), x) <==> Holds(op, In(a, x), In(b, x))
    {
      RawMergeIn(op, a, 0, b, 0, x);
      DropZeroIn(RawMerge(op, a, 0, b, 0), x);
      assert a[0..] == a && b[0..] == b;
    }
  }

  lemma SameHead(a: seq<Block>, b: seq<Block>)
    requires Canonical(a) && Canonical(b) && |a| > 0
    requires Members(a) == Members(b)
    ensures |b| > 0 && b[0].indx <= a[0].indx
  {
    SomeBitIfNonZero(a[0]);
    var x: nat :| InBlock(a[0], x);
    assert In(a, x);
    assert x in Members(a);
    assert In(b, x);
    if |b| > 0 && a[0].indx < b[0].indx {
      hide BitOf;
      NotInAbove(b, x);
    }
  }

  lemma SameBits(a: seq<Block>, b: seq<Block>)
    requires Canonical(a) && Canonical(b) && |a| > 0 && |b| > 0
    requires Members(a) == Members(b) && a[0].indx == b[0].indx
    ensures a[0] == b[0]
  {
    hide Bit;
    forall w, i | 0 <= w < ELEMENT_WORDS && 0 <= i < WORD_BITS
      ensures Bit(a[0].bits[w], i) <==> Bit(b[0].bits[w], i)
    {
      var x := Number(a[0].indx, w, i);
      NumberParts(a[0].indx, w, i);
      InSorted(a, 0, x);
      InSorted(b, 0, x);
      assert x in Members(a) <==> x in Members(b);
    }
    WordExtensional(a[0].bits[0], b[0].bits[0]);
    WordExtensional(a[0].bits[1], b[0].bits[1]);
  }

  /** Two canonical sequences that denote the same set are the same sequence. */
  lemma {:induction false} CanonicalUnique(a: seq<Block>, b: seq<Block>)
    requires Canonical(a) && Canonical(b)
    requires Members(a) == Members(b)
    ensures a == b
  {
    if a == [] {
      if b != [] { SameHead(b, a); }
    } else {
      SameHead(a, b);
      SameHead(b, a);
      SameBits(a, b);
      hide InBlock;
      forall x: nat
        ensures In(a[1..], x) <==> In(b[1..], x)
      {
        RestIn(a, x);
        RestIn(b, x);
        assert x in Members(a) <==> x in Members(b);
      }
      CanonicalUnique(a[1..], b[1..]);
      assert a == [a[0]] + a[1..];
      assert b == [b[0]] + b[1..];
    }
  }

  lemma RestIn(a: seq<Block>, x: nat)
    requires Canonical(a) && |a| > 0
    ensures In(a[1..], x) <==> In(a, x) && !InBlock(a[0], x)
  {
    hide BitOf;
    InTail(a, 0, x);
    assert a[0..] == a;
    if InBlock(a[0], x) { NotInAbove(a[1..], x); }
  }

  // ---- changing one block ----

  function Without(bs: seq<Block>, k: nat): seq<Block>
    requires k < |bs|
  {
    bs[..k] + bs[k + 1..]
  }

  function With(bs: seq<Block>, k: nat, b: Block): seq<Block>
    requires k <= |bs|
  {
    bs[..k] + [b] + bs[k..]
  }

  lemma WithNil(b: Block)
    ensures With([], 0, b) == [b]
  {}

  lemma WithAt(bs: seq<Block>, k: nat, b: Block, c: Block)
    requires k <= |bs|
    ensures |With(bs, k, b)| == |bs| + 1 && With(bs, k, b)[k] == b
    ensures With(bs, k, b)[k := c] == With(bs, k, c)
  {}

  lemma WithoutLen(bs: seq<Block>, k: nat)
    requires k < |bs|
    ensures |Without(bs, k)| == |bs| - 1
  {}

  lemma WithoutReplaced(bs: seq<Block>, k: nat, c: Block)
    requires k < |bs|
    ensures Without(bs[k := c], k) == Without(bs, k)
  {}

  lemma WithEnd(bs: seq<Block>, b: Block)
    ensures With(bs, |bs|, b) == bs + [b]
  {}

  lemma WithIn(bs: seq<Block>, k: nat, b: Block, x: nat)
    requires k <= |bs|
    ensures In(With(bs, k, b), x) <==> In(bs, x) || InBlock(b, x)
  {
    hide InBlock;
    InConcat(bs[..k] + [b], bs[k..], x);
    InConcat(bs[..k], [b], x);
    InConcat(bs[..k], bs[k..], x);
    InOne(b, x);
    assert bs == bs[..k] + bs[k..];
  }

  lemma WithoutIn(bs: seq<Block>, k: nat, x: nat)
    requires Sorted(bs) && k < |bs|
    ensures In(Without(bs, k), x) <==> In(bs, x) && !InBlock(bs[k], x)
  {
    hide BitOf;
    assert With(Without(bs, k), k, bs[k]) == bs;
    WithIn(Without(bs, k), k, bs[k], x);
    if InBlock(bs[k], x) { NotInRest(bs, k, x); }
  }

  lemma NotInRest(bs: seq<Block>, k: nat, x: nat)
    requires Sorted(bs) && k < |bs| && InBlock(bs[k], x)
    ensures !In(Without(bs, k), x)
  {
    hide BitOf;
  }

  lemma ReplaceIn(bs: seq<Block>, k: nat, b: Block, x: nat)
    requires Sorted(bs) && k < |bs| && b.indx == bs[k].indx
    ensures In(bs[k := b], x) <==> (In(bs, x) && x / ELEMENT_BITS != b.indx) || InBlock(b, x)
  {
    hide BitOf;
    assert With(Without(bs, k), k, b) == bs[k := b];
    WithIn(Without(bs, k), k, b, x);
    WithoutIn(bs, k, x);
    if x / ELEMENT_BITS == b.indx && In(bs, x) {
      InSorted(bs, k, x);
    }
  }

  lemma WithShape(bs: seq<Block>, k: nat, b: Block)
    requires Canonical(bs) && k <= |bs| && |b.bits| == ELEMENT_WORDS && b.bits != ZEROS
    requires k > 0 ==> bs[k - 1].indx < b.indx
    requires k < |bs| ==> b.indx < bs[k].indx
    ensures Canonical(With(bs, k, b))
  {}

  lemma WithoutShape(bs: seq<Block>, k: nat)
    requires Sized(bs) && Sorted(bs) && k < |bs|
    requires forall i :: 0 <= i < |bs| && i != k ==> bs[i].bits != ZEROS
    ensures Canonical(Without(bs, k))
  {}

  /** The element with index indx, if present, is element k; otherwise k is next to where it would go. */
  predicate Near(bs: seq<Block>, k: nat, indx: nat) {
    && k < |bs|
    && (k > 0 ==> bs[k - 1].indx < indx)
    && (k + 1 < |bs| ==> indx < bs[k + 1].indx)
  }

  lemma NearOnly(bs: seq<Block>, k: nat, indx: nat)
    requires Canonical(bs) && Near(bs, k, indx)
    ensures forall m :: 0 <= m < |bs| && bs[m].indx == indx ==> m == k
  {}

  lemma NearHit(bs: seq<Block>, k: nat)
    requires Canonical(bs) && k < |bs|
    ensures Near(bs, k, bs[k].indx)
  {}

  // ---- setting and clearing one bit ----

  function WithBit(bits: seq<Word>, x: nat): (r: seq<Word>)
    requires |bits| == ELEMENT_WORDS
    ensures |r| == ELEMENT_WORDS
  {
    var w := x / WORD_BITS % ELEMENT_WORDS;
    bits[w := Or(bits[w], Shl(1, x % WORD_BITS))]
  }

  function WithoutBit(bits: seq<Word>, x: nat): (r: seq<Word>)
    requires |bits| == ELEMENT_WORDS
    ensures |r| == ELEMENT_WORDS
  {
    var w := x / WORD_BITS % ELEMENT_WORDS;
    bits[w := And(bits[w], Not(Shl(1, x % WORD_BITS)))]
  }

  lemma WithBitOf(bits: seq<Word>, x: nat, y: nat)
    requires |bits| == ELEMENT_WORDS && x / ELEMENT_BITS == y / ELEMENT_BITS
    ensures BitOf(WithBit(bits, x), y) <==> BitOf(bits, y) || x == y
  {
    hide Or, Shl, Bit;
    var w := x / WORD_BITS % ELEMENT_WORDS;
    BitOr(bits[w], Shl(1, x % WORD_BITS), y % WORD_BITS);
    BitShl(x % WORD_BITS, y % WORD_BITS);
    NumberOf(x);
    NumberOf(y);
  }

  lemma WithoutBitOf(bits: seq<Word>, x: nat, y: nat)
    requires |bits| == ELEMENT_WORDS && x / ELEMENT_BITS == y / ELEMENT_BITS
    ensures BitOf(WithoutBit(bits, x), y) <==> BitOf(bits, y) && x != y
  {
    hide And, Not, Shl, Bit;
    var w := x / WORD_BITS % ELEMENT_WORDS;
    BitAnd(bits[w], Not(Shl(1, x % WORD_BITS)), y % WORD_BITS);
    BitNot(Shl(1, x % WORD_BITS), y % WORD_BITS);
    BitShl(x % WORD_BITS, y % WORD_BITS);
    NumberOf(x);
    NumberOf(y);
  }

  lemma WithBitNonZero(bits: seq<Word>, x: nat)
    requires |bits| == ELEMENT_WORDS
    ensures WithBit(bits, x) != ZEROS
  {
    WithBitOf(bits, x, x);
    NoBitInZeros(x);
  }

  /** Setting a bit in an element that is already there. */
  lemma SetBitMeaning(bs: seq<Block>, k: nat, x: nat)
    requires Canonical(bs) && k < |bs| && bs[k].indx == x / ELEMENT_BITS
    ensures Canonical(bs[k := Block(bs[k].indx, WithBit(bs[k].bits, x))])
    ensures Members(bs[k := Block(bs[k].indx, WithBit(bs[k].bits, x))]) == Members(bs) + iset{x}
  {
    hide In, WithBit;
    var b := Block(bs[k].indx, WithBit(bs[k].bits, x));
    WithBitNonZero(bs[k].bits, x);
    forall y: nat ensures In(bs[k := b], y) <==> In(bs, y) || x == y {
      ReplaceIn(bs, k, b, y);
      if y / ELEMENT_BITS == b.indx {
        WithBitOf(bs[k].bits, x, y);
        InSorted(bs, k, y);
      }
    }
  }

  /** Adding an element that holds just one bit. */
  lemma AddBitMeaning(bs: seq<Block>, k: nat, x: nat)
    requires Canonical(bs) && k <= |bs|
    requires k > 0 ==> bs[k - 1].indx < x / ELEMENT_BITS
    requires k < |bs| ==> x / ELEMENT_BITS < bs[k].indx
    ensures Canonical(With(bs, k, Block(x / ELEMENT_BITS, WithBit(ZEROS, x))))
    ensures Members(With(bs, k, Block(x / ELEMENT_BITS, WithBit(ZEROS, x)))) == Members(bs) + iset{x}
  {
    hide In, With, WithBit;
    var b := Block(x / ELEMENT_BITS, WithBit(ZEROS, x));
    WithBitNonZero(ZEROS, x);
    WithShape(bs, k, b);
    forall y: nat ensures In(With(bs, k, b), y) <==> In(bs, y) || x == y {
      WithIn(bs, k, b, y);
      if y / ELEMENT_BITS == b.indx {
        WithBitOf(ZEROS, x, y);
        NoBitInZeros(y);
      }
    }
  }

  function ClearedBlocks(bs: seq<Block>, k: nat, x: nat): seq<Block>
    requires k < |bs| && |bs[k].bits| == ELEMENT_WORDS
  {
    var r := WithoutBit(bs[k].bits, x);
    if r == ZEROS then Without(bs, k) else bs[k := Block(bs[k].indx, r)]
  }

  /** Clearing a bit, and freeing the element when nothing is left in it. */
  lemma ClearBitMeaning(bs: seq<Block>, k: nat, x: nat)
    requires Canonical(bs) && k < |bs| && bs[k].indx == x / ELEMENT_BITS
    ensures Canonical(ClearedBlocks(bs, k, x))
    ensures Members(ClearedBlocks(bs, k, x)) == Members(bs) - iset{x}
  {
    hide In, Without, WithoutBit;
    var b := Block(bs[k].indx, WithoutBit(bs[k].bits, x));
    var n := ClearedBlocks(bs, k, x);
    forall y: nat ensures In(n, y) <==> In(bs, y) && x != y {
      ReplaceIn(bs, k, b, y);
      WithoutIn(bs, k, y);
      if y / ELEMENT_BITS == b.indx {
        WithoutBitOf(bs[k].bits, x, y);
        InSorted(bs, k, y);
        NoBitInZeros(y);
      }
    }
    WithoutShape(bs, k);
  }

  /** No element with the index of x: x is not a member. */
  lemma AbsentMeaning(bs: seq<Block>, x: nat)
    requires forall m :: 0 <= m < |bs| ==> bs[m].indx != x / ELEMENT_BITS
    ensures x !in Members(bs)
  {}

  // ---- merging into the left operand: its blocks are replaced from the front ----

  /** `now` is the left operand after its first i blocks, and the first j of the right one, have been dealt with. */
  ghost predicate Merged(op: BoolOp, now: seq<Block>, c: MergePos, a: seq<Block>, b: seq<Block>) {
    && c.i <= |a| && c.j <= |b| && Canonical(a) && Canonical(b)
    && c.k == |DropZero(c.p)| && now == DropZero(c.p) + a[c.i..] && Sized(c.p)
    && c.p + RawMerge(op, a, c.i, b, c.j) == RawMerge(op, a, 0, b, 0)
    && Ahead(c.p, a, c.i, b, c.j)
  }

  /** What has been computed comes before what is left of both operands. */
  ghost predicate Ahead(p: seq<Block>, a: seq<Block>, i: nat, b: seq<Block>, j: nat) {
    forall m :: 0 <= m < |p| ==> (i < |a| ==> p[m].indx < a[i].indx) && (j < |b| ==> p[m].indx < b[j].indx)
  }

  /** The blocks computed, how many of them are kept, and the positions in the two operands. */
  datatype MergePos = MergePos(p: seq<Block>, k: nat, i: nat, j: nat)

  lemma MergedAt(op: BoolOp, now: seq<Block>, c: MergePos, a: seq<Block>, b: seq<Block>)
    requires Merged(op, now, c, a, b)
    ensures c.i <= |a| && c.j <= |b| && c.k <= |now| && |now| == c.k + |a| - c.i
    ensures c.i < |a| ==> now[c.k] == a[c.i]
    ensures Sized(now)
  {
    DropZeroSized(c.p);
  }

  lemma MergedOperands(op: BoolOp, now: seq<Block>, c: MergePos, a: seq<Block>, b: seq<Block>)
    requires Merged(op, now, c, a, b)
    ensures Canonical(a) && Canonical(b)
  {}

  lemma {:induction false} DropZeroSized(p: seq<Block>)
    requires Sized(p)
    ensures Sized(DropZero(p))
  {
    if p != [] { DropZeroSized(p[1..]); }
  }

  lemma MergedStart(op: BoolOp, a: seq<Block>, b: seq<Block>)
    requires Canonical(a) && Canonical(b)
    ensures Merged(op, a, MergePos([], 0, 0, 0), a, b)
  {
    NothingComputed();
  }

  /** Freeing an element of the left operand that the operation does not keep. */
  lemma MergedFree(op: BoolOp, now: seq<Block>, c: MergePos, a: seq<Block>, b: seq<Block>)
    requires Merged(op, now, c, a, b) && c.i < |a| && (c.j == |b| || a[c.i].indx < b[c.j].indx) && !KeepsLeft(op)
    ensures c.k < |now| && Merged(op, Without(now, c.k), c.(i := c.i + 1), a, b)
  {
    hide RawMerge, KeepsLeft, DropZero;
    StepLeft(op, a, c.i, b, c.j, c.p);
    assert now[..c.k] == DropZero(c.p);
    assert now[c.k + 1..] == a[c.i + 1..];
  }

  /** Passing over one that it keeps. */
  lemma MergedPass(op: BoolOp, now: seq<Block>, c: MergePos, a: seq<Block>, b: seq<Block>)
    requires Merged(op, now, c, a, b) && c.i < |a| && (c.j == |b| || a[c.i].indx < b[c.j].indx) && KeepsLeft(op)
    ensures Merged(op, now, MergePos(c.p + [a[c.i]], c.k + 1, c.i + 1, c.j), a, b)
  {
    hide RawMerge, KeepsLeft, DropZero;
    StepLeft(op, a, c.i, b, c.j, c.p);
    DropZeroAppend(c.p, a[c.i]);
    assert a[c.i..] == [a[c.i]] + a[c.i + 1..];
  }

  /** Passing over an element of the right operand that the operation does not keep. */
  lemma MergedSkip(op: BoolOp, now: seq<Block>, c: MergePos, a: seq<Block>, b: seq<Block>)
    requires Merged(op, now, c, a, b) && c.j < |b| && (c.i == |a| || b[c.j].indx < a[c.i].indx) && !KeepsRight(op)
    ensures Merged(op, now, c.(j := c.j + 1), a, b)
  {
    hide RawMerge, KeepsRight, DropZero;
    StepRight(op, a, c.i, b, c.j, c.p);
  }

  /** Inserting one that it keeps. */
  lemma MergedInsert(op: BoolOp, now: seq<Block>, c: MergePos, a: seq<Block>, b: seq<Block>)
    requires Merged(op, now, c, a, b) && c.j < |b| && (c.i == |a| || b[c.j].indx < a[c.i].indx) && KeepsRight(op)
    ensures c.k <= |now|
    ensures Merged(op, With(now, c.k, b[c.j]), MergePos(c.p + [b[c.j]], c.k + 1, c.i, c.j + 1), a, b)
  {
    hide RawMerge, KeepsRight, DropZero;
    StepRight(op, a, c.i, b, c.j, c.p);
    DropZeroAppend(c.p, b[c.j]);
    assert now[..c.k] == DropZero(c.p);
    assert now[c.k..] == a[c.i..];
  }

  lemma AheadBoth(p: seq<Block>, blk: Block, a: seq<Block>, i: nat, b: seq<Block>, j: nat)
    requires Ahead(p, a, i, b, j) && Sorted(a) && Sorted(b) && i < |a| && j < |b| && a[i].indx == b[j].indx == blk.indx
    ensures Ahead(p + [blk], a, i + 1, b, j + 1)
  {}

  lemma MatchParts(now: seq<Block>, d: seq<Block>, a: seq<Block>, i: nat, blk: Block)
    requires i < |a| && now == d + a[i..]
    ensures |d| < |now| && now[|d| := blk] == d + [blk] + a[i + 1..] && Without(now, |d|) == d + a[i + 1..]
  {}

  /** Replacing an element by the combination of the two, or freeing it if that is all zero. */
  lemma MergedMatch(op: BoolOp, now: seq<Block>, c: MergePos, a: seq<Block>, b: seq<Block>)
    requires Merged(op, now, c, a, b) && c.i < |a| && c.j < |b| && a[c.i].indx == b[c.j].indx
    ensures |a[c.i].bits| == |b[c.j].bits| == ELEMENT_WORDS && c.k < |now|
    ensures
      var blk := Block(a[c.i].indx, WordsOp(op, a[c.i].bits, b[c.j].bits));
      if blk.bits == ZEROS then Merged(op, Without(now, c.k), MergePos(c.p + [blk], c.k, c.i + 1, c.j + 1), a, b)
      else Merged(op, now[c.k := blk], MergePos(c.p + [blk], c.k + 1, c.i + 1, c.j + 1), a, b)
  {
    hide RawMerge, DropZero, WordsOp, Ahead, Without;
    StepBoth(op, a, c.i, b, c.j, c.p);
    var blk := Block(a[c.i].indx, WordsOp(op, a[c.i].bits, b[c.j].bits));
    DropZeroAppend(c.p, blk);
    AheadBoth(c.p, blk, a, c.i, b, c.j);
    MatchParts(now, DropZero(c.p), a, c.i, blk);
  }

  /** At the end: what is left of the left operand is kept by the operation, or not. */
  lemma MergedEnd(op: BoolOp, now: seq<Block>, c: MergePos, a: seq<Block>, b: seq<Block>)
    requires Merged(op, now, c, a, b)
    requires c.j == |b| || (c.i == |a| && !KeepsRight(op))
    ensures c.k <= |now|
    ensures Merge(op, a, b) == (if KeepsLeft(op) || c.i == |a| then now else now[..c.k])
  {
    hide DropZero;
    assert now[..c.k] == DropZero(c.p);
    DropZeroConcat(c.p, RawMerge(op, a, c.i, b, c.j));
    if c.i == |a| {
      NothingLeft(op, a, c.i, b, c.j);
      NothingComputed();
    } else if KeepsLeft(op) {
      RestKept(op, a, c.i, b);
      DropZeroCanonical(a[c.i..]);
    } else {
      NothingLeft(op, a, c.i, b, c.j);
      NothingComputed();
    }
  }

  lemma {:induction false} RestKept(op: BoolOp, a: seq<Block>, i: nat, b: seq<Block>)
    requires i <= |a| && Sized(a) && Sized(b) && KeepsLeft(op)
    ensures RawMerge(op, a, i, b, |b|) == a[i..]
    decreases |a| - i
  {
    if i < |a| {
      RestKept(op, a, i + 1, b);
      assert a[i..] == [a[i]] + a[i + 1..];
    }
  }

  /** The blocks on both sides of position k are in order, whatever is about to be dropped. */
  lemma MergedOrder(op: BoolOp, now: seq<Block>, c: MergePos, a: seq<Block>, b: seq<Block>)
    requires Merged(op, now, c, a, b)
    ensures forall m, n :: 0 <= m < c.k <= n < |now| ==> now[m].indx < now[n].indx
  {
    if c.i < |a| {
      DropZeroBelow(c.p, a[c.i].indx);
      assert forall n :: c.k <= n < |now| ==> now[n] == a[c.i + (n - c.k)];
    }
  }

  /** Nothing has changed so far iff what is kept is exactly what was there. */
  ghost predicate Unchanged(c: MergePos, a: seq<Block>)
    requires c.i <= |a|
  {
    DropZero(c.p) == a[..c.i]
  }

  lemma UnchangedEnd(op: BoolOp, now: seq<Block>, c: MergePos, a: seq<Block>, b: seq<Block>)
    requires Merged(op, now, c, a, b)
    ensures now == a <==> Unchanged(c, a)
  {
    assert a == a[..c.i] + a[c.i..];
    if now == a {
      assert now[..c.k] == DropZero(c.p);
    }
  }

  lemma UnchangedSnoc(p: seq<Block>, x: Block, a: seq<Block>, i: nat)
    requires i < |a| && x.bits != ZEROS
    ensures DropZero(p + [x]) == a[..i + 1] <==> DropZero(p) == a[..i] && x == a[i]
  {
    hide DropZero;
    DropZeroAppend(p, x);
    assert a[..i + 1] == a[..i] + [a[i]];
    if DropZero(p) + [x] == a[..i + 1] {
      assert (DropZero(p) + [x])[..|DropZero(p)|] == DropZero(p);
    }
  }

  lemma KeptCount(op: BoolOp, now: seq<Block>, c: MergePos, a: seq<Block>, b: seq<Block>)
    requires Merged(op, now, c, a, b)
    ensures c.k == |DropZero(c.p)|
  {}

  lemma NotUnchanged(c: MergePos, a: seq<Block>)
    requires c.i <= |a| && c.i < |DropZero(c.p)|
    ensures !Unchanged(c, a)
  {}

  /** The element computed by a & ~b: dropped, or different, or the same as before. */
  lemma ClearedStep(c: MergePos, a: seq<Block>, y: Block)
    requires c.i < |a| && |a[c.i].bits| == |y.bits| == ELEMENT_WORDS && a[c.i].bits != ZEROS
    requires |DropZero(c.p)| <= c.i
    ensures
      forall c': MergePos :: c'.i == c.i + 1 && c'.p == c.p + [Block(a[c.i].indx, WordsOp(AndComplOp, a[c.i].bits, y.bits))] ==>
        (Unchanged(c', a) <==> Unchanged(c, a) && WordsOp(AndComplOp, a[c.i].bits, y.bits) == a[c.i].bits)
  {
    hide DropZero, WordsOp;
    var x := Block(a[c.i].indx, WordsOp(AndComplOp, a[c.i].bits, y.bits));
    DropZeroAppend(c.p, x);
    if x.bits != ZEROS { UnchangedSnoc(c.p, x, a, c.i); }
  }

  lemma OredStep(c: MergePos, a: seq<Block>, y: Block)
    requires c.i < |a| && |a[c.i].bits| == |y.bits| == ELEMENT_WORDS && a[c.i].bits != ZEROS
    ensures
      forall c': MergePos :: c'.i == c.i + 1 && c'.p == c.p + [Block(a[c.i].indx, WordsOp(IorOp, a[c.i].bits, y.bits))] ==>
        (Unchanged(c', a) <==> Unchanged(c, a) && WordsOp(IorOp, a[c.i].bits, y.bits) == a[c.i].bits)
  {
    hide DropZero, WordsOp;
    var x := Block(a[c.i].indx, WordsOp(IorOp, a[c.i].bits, y.bits));
    OrNonZero(a[c.i].bits, y.bits);
    DropZeroAppend(c.p, x);
    UnchangedSnoc(c.p, x, a, c.i);
  }
}
