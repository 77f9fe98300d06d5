/** alloc-pool.c: blocks of equal slots, the free list threaded through the free ones, and the counters. */
module AllocPools {
  type Addr = nat

  const NULL: Addr := 0

  // ---- the layout of a block ----

  /** align_eight */
  function AlignEight(x: nat): (r: nat)
    ensures r % 8 == 0 && x <= r < x + 8
  {
    (x + 7) / 8 * 8
  }

  /** Sizes fixed when a pool is made. A slot is idOffset bytes for an id, then what the caller gets. */
  datatype Shape = Shape(eltsPerBlock: nat, eltSize: nat, headerSize: nat, idOffset: nat, pointerSize: nat) {
    /** A slot has room for a link behind its id, and the block header for one too. */
    predicate Valid() {
      eltsPerBlock > 0 && 0 < pointerSize <= headerSize && idOffset + pointerSize <= eltSize
    }

    /** What the caller of pool_alloc gets of the i-th slot of the block at b. */
    function Slot(b: Addr, i: nat): Addr {
      if i == 0 then b + headerSize + idOffset else Slot(b, i - 1) + eltSize
    }

    function BlockSize(): nat {
      eltSize * eltsPerBlock + headerSize
    }

    /** The bytes a caller may use. */
    function Width(): nat
      requires Valid()
    {
      eltSize - idOffset
    }

    function FirstSlots(b: Addr, n: nat): set<Addr> {
      if n == 0 then {} else FirstSlots(b, n - 1) + {Slot(b, n - 1)}
    }

    function SlotsOf(b: Addr): set<Addr> {
      FirstSlots(b, eltsPerBlock)
    }

    function Slots(blocks: seq<Addr>): set<Addr> {
      if blocks == [] then {} else SlotsOf(blocks[0]) + Slots(blocks[1..])
    }

    predicate Apart(a: Addr, b: Addr) {
      a + BlockSize() <= b || b + BlockSize() <= a
    }

    /** What malloc promises of its results. */
    predicate Separate(blocks: seq<Addr>) {
      (forall b :: b in blocks ==> b != NULL)
      && forall i: nat, j: nat :: i < j < |blocks| ==> Apart(blocks[i], blocks[j])
    }
  }

  lemma SlotIs(s: Shape, b: Addr, i: nat)
    ensures s.Slot(b, i) == b + s.headerSize + s.idOffset + s.eltSize * i
  {}

  lemma {:induction false} MulLess(a: nat, i: nat, j: nat)
    requires i < j
    ensures a * i + a <= a * j
  {
    if j == i + 1 {
      assert a * j == a * i + a;
    } else {
      MulLess(a, i, j - 1);
      assert a * j == a * (j - 1) + a;
    }
  }

  /** Slots of a block do not overlap and lie behind its header and inside it. */
  lemma SlotsInside(s: Shape, b: Addr, i: nat, j: nat)
    requires s.Valid() && i < j <= s.eltsPerBlock
    ensures b + s.headerSize + s.idOffset <= s.Slot(b, i) && s.Slot(b, i) + s.Width() <= b + s.BlockSize()
    ensures s.Slot(b, i) + s.eltSize <= s.Slot(b, j)
  {
    SlotIs(s, b, i);
    SlotIs(s, b, j);
    MulLess(s.eltSize, i, j);
    MulLess(s.eltSize, i, s.eltsPerBlock);
  }

  lemma {:induction false} SlotIndex(s: Shape, b: Addr, n: nat, p: Addr) returns (i: nat)
    requires p in s.FirstSlots(b, n)
    ensures i < n && p == s.Slot(b, i)
  {
    if p == s.Slot(b, n - 1) { i := n - 1; } else { i := SlotIndex(s, b, n - 1, p); }
  }

  lemma {:induction false} SlotsNumber(s: Shape, b: Addr, n: nat)
    requires s.Valid() && n <= s.eltsPerBlock
    ensures |s.FirstSlots(b, n)| == n
  {
    hide Shape.Slot;
    if n > 0 {
      SlotsNumber(s, b, n - 1);
      NextSlotNew(s, b, n - 1);
    }
  }

  lemma NextSlotNew(s: Shape, b: Addr, n: nat)
    requires s.Valid() && n < s.eltsPerBlock
    ensures s.Slot(b, n) !in s.FirstSlots(b, n)
  {
    if s.Slot(b, n) in s.FirstSlots(b, n) {
      var i := SlotIndex(s, b, n, s.Slot(b, n));
      SlotsInside(s, b, i, n);
    }
  }

  /** In a block at a multiple of eight, with a header and a width that are multiples of eight, all slots are at multiples of
      eight if and only if the ids in front of them take a multiple of eight bytes (none, without checking). */
  lemma SlotsAligned(s: Shape, b: Addr)
    requires s.Valid() && b % 8 == 0 && s.headerSize % 8 == 0 && s.Width() % 8 == 0
    ensures (forall p :: p in s.SlotsOf(b) ==> p % 8 == 0) <==> s.idOffset % 8 == 0
  {
    if s.idOffset % 8 == 0 {
      forall p | p in s.SlotsOf(b) ensures p % 8 == 0 {
        var i := SlotIndex(s, b, s.eltsPerBlock, p);
        SlotAligned(s, b, i);
      }
    } else {
      FirstIn(s, b, s.eltsPerBlock);
      assert s.Slot(b, 0) in s.SlotsOf(b) && s.Slot(b, 0) % 8 != 0;
    }
  }

  lemma {:induction false} SlotAligned(s: Shape, b: Addr, i: nat)
    requires s.Valid() && b % 8 == 0 && s.headerSize % 8 == 0 && s.Width() % 8 == 0 && s.idOffset % 8 == 0
    ensures s.Slot(b, i) % 8 == 0
  {
    SumAligned(s.Width(), s.idOffset);
    if i == 0 {
      SumAligned(b, s.headerSize);
      SumAligned(b + s.headerSize, s.idOffset);
    } else {
      SlotAligned(s, b, i - 1);
      SumAligned(s.Slot(b, i - 1), s.eltSize);
    }
  }

  lemma SumAligned(x: int, y: int)
    requires x % 8 == 0 && y % 8 == 0
    ensures (x + y) % 8 == 0
  {}

  lemma {:induction false} FirstIn(s: Shape, b: Addr, n: nat)
    requires n > 0
    ensures s.Slot(b, 0) in s.FirstSlots(b, n)
  {
    if n > 1 { FirstIn(s, b, n - 1); }
  }

  /** The range of a slot is in its block, behind the header, and apart from every other slot of the block. */
  lemma SlotRange(s: Shape, b: Addr, p: Addr)
    requires s.Valid() && p in s.SlotsOf(b)
    ensures b + s.headerSize + s.idOffset <= p && p + s.Width() <= b + s.BlockSize()
    ensures forall q :: q in s.SlotsOf(b) && q != p ==> p + s.eltSize <= q || q + s.eltSize <= p
  {
    var i := SlotIndex(s, b, s.eltsPerBlock, p);
    SlotsInside(s, b, i, s.eltsPerBlock);
    forall q | q in s.SlotsOf(b) && q != p ensures p + s.eltSize <= q || q + s.eltSize <= p {
      var j := SlotIndex(s, b, s.eltsPerBlock, q);
      if i < j { SlotsInside(s, b, i, j); } else { SlotsInside(s, b, j, i); }
    }
  }

  lemma {:induction false} SlotBlock(s: Shape, blocks: seq<Addr>, p: Addr) returns (k: nat)
    requires p in s.Slots(blocks)
    ensures k < |blocks| && p in s.SlotsOf(blocks[k])
  {
    if p in s.SlotsOf(blocks[0]) {
      k := 0;
    } else {
      var j := SlotBlock(s, blocks[1..], p);
      k := j + 1;
    }
  }

  /** No two slots of a pool overlap, whatever blocks they are in, and none is null. */
  lemma SlotsApart(s: Shape, blocks: seq<Addr>, p: Addr, q: Addr)
    requires s.Valid() && s.Separate(blocks) && p in s.Slots(blocks) && q in s.Slots(blocks) && p != q
    ensures p + s.Width() <= q || q + s.Width() <= p
  {
    var i := SlotBlock(s, blocks, p);
    var j := SlotBlock(s, blocks, q);
    SlotRange(s, blocks[i], p);
    SlotRange(s, blocks[j], q);
    if i < j { assert s.Apart(blocks[i], blocks[j]); } else if j < i { assert s.Apart(blocks[j], blocks[i]); }
  }

  /** No slot overlaps the link in the header of a block. */
  lemma HeaderApart(s: Shape, blocks: seq<Addr>, p: Addr, k: nat)
    requires s.Valid() && s.Separate(blocks) && p in s.Slots(blocks) && k < |blocks|
    ensures p != NULL && (p + s.Width() <= blocks[k] || blocks[k] + s.headerSize <= p)
  {
    var i := SlotBlock(s, blocks, p);
    SlotRange(s, blocks[i], p);
    if i < k { assert s.Apart(blocks[i], blocks[k]); } else if k < i { assert s.Apart(blocks[k], blocks[i]); }
  }

  lemma TwoBlocks(s: Shape, a: Addr, b: Addr)
    requires s.Valid() && s.Apart(a, b)
    ensures s.SlotsOf(a) !! s.SlotsOf(b)
  {
    forall p | p in s.SlotsOf(a) ensures p !in s.SlotsOf(b) {
      SlotRange(s, a, p);
      if p in s.SlotsOf(b) { SlotRange(s, b, p); }
    }
  }

  /** A block apart from all others has slots of its own. */
  lemma {:induction false} NewSlots(s: Shape, blocks: seq<Addr>, b: Addr)
    requires s.Valid() && forall k: nat :: k < |blocks| ==> s.Apart(b, blocks[k])
    ensures s.SlotsOf(b) !! s.Slots(blocks)
  {
    if blocks != [] {
      TwoBlocks(s, b, blocks[0]);
      NewSlots(s, blocks[1..], b);
    }
  }

  lemma {:induction false} SlotsCount(s: Shape, blocks: seq<Addr>)
    requires s.Valid() && s.Separate(blocks)
    ensures |s.Slots(blocks)| == |blocks| * s.eltsPerBlock
  {
    hide Shape.SlotsOf, Shape.Apart;
    if blocks != [] {
      SeparateRest(s, blocks);
      SlotsCount(s, blocks[1..]);
      BlockCount(s, blocks[0]);
      NewSlots(s, blocks[1..], blocks[0]);
      OneMoreTimes(|blocks| - 1, s.eltsPerBlock);
    }
  }

  lemma BlockCount(s: Shape, b: Addr)
    requires s.Valid()
    ensures |s.SlotsOf(b)| == s.eltsPerBlock
  {
    SlotsNumber(s, b, s.eltsPerBlock);
  }

  lemma OneMoreTimes(k: nat, n: nat)
    ensures (k + 1) * n == k * n + n
  {}

  lemma SeparateRest(s: Shape, blocks: seq<Addr>)
    requires s.Separate(blocks) && blocks != []
    ensures s.Separate(blocks[1..]) && forall k: nat :: k < |blocks| - 1 ==> s.Apart(blocks[0], blocks[1..][k])
  {
    assert forall b :: b in blocks[1..] ==> b in blocks;
    forall i: nat, j: nat | i < j < |blocks| - 1 ensures s.Apart(blocks[1..][i], blocks[1..][j]) {
      assert s.Apart(blocks[i + 1], blocks[j + 1]);
    }
    forall k: nat | k < |blocks| - 1 ensures s.Apart(blocks[0], blocks[1..][k]) {
      assert s.Apart(blocks[0], blocks[k + 1]);
    }
  }

  // ---- lists threaded through memory ----

  /** The words of memory that hold links. */
  type Memory = map<Addr, Addr>

  /** From first, the links lead through exactly l, to null. */
  ghost predicate Linked(m: Memory, first: Addr, l: seq<Addr>)
    decreases l
  {
    if l == [] then first == NULL else first == l[0] != NULL && first in m && Linked(m, m[first], l[1..])
  }

  lemma {:induction false} LinkedElsewhere(m: Memory, first: Addr, l: seq<Addr>, a: Addr, v: Addr)
    requires Linked(m, first, l) && a !in l
    ensures Linked(m[a := v], first, l)
    decreases l
  {
    if l != [] { LinkedElsewhere(m, m[first], l[1..], a, v); }
  }

  lemma {:induction false} LinkedUnique(m: Memory, first: Addr, l: seq<Addr>, k: seq<Addr>)
    requires Linked(m, first, l) && Linked(m, first, k)
    ensures l == k
    decreases l
  {
    if l != [] {
      LinkedUnique(m, m[first], l[1..], k[1..]);
      assert l == [l[0]] + l[1..] && k == [k[0]] + k[1..];
    }
  }

  lemma {:induction false} LinkedFrom(m: Memory, first: Addr, l: seq<Addr>, i: nat)
    requires Linked(m, first, l) && i < |l|
    ensures Linked(m, l[i], l[i..])
    decreases l
  {
    if i == 0 {
      assert l[0..] == l;
    } else {
      LinkedFrom(m, m[first], l[1..], i - 1);
      assert l[1..][i - 1..] == l[i..];
    }
  }

  /** Following the old list in front of p from the new one: it can only go on into p again. */
  lemma {:induction false} LeadsTo(m: Memory, first: Addr, l: seq<Addr>, p: Addr, v: Addr, k: seq<Addr>)
    requires Linked(m, first, l) && p in l && Linked(m[p := v], first, k)
    ensures p in k
    decreases l
  {
    if first != p {
      LeadsTo(m, m[first], l[1..], p, v, k[1..]);
    }
  }

  /** Putting a slot of the free list on it again makes a ring: the list then has no end. */
  lemma DoubleFreeRing(m: Memory, first: Addr, l: seq<Addr>, p: Addr, ring: Memory)
    requires Linked(m, first, l) && p in l && ring == m[p := first]
    ensures forall k :: !Linked(ring, p, k)
  {
    forall k ensures !Linked(ring, p, k) { RingHasNoEnd(m, first, l, p, ring, k); }
  }

  lemma RingHasNoEnd(m: Memory, first: Addr, l: seq<Addr>, p: Addr, ring: Memory, k: seq<Addr>)
    requires Linked(m, first, l) && p in l && ring == m[p := first]
    ensures !Linked(ring, p, k)
  {
    NotNull(m, first, l, p);
    if k != [] && Linked(ring, p, k) {
      LeadsTo(m, first, l, p, first, k[1..]);
      var i: nat :| i < |k[1..]| && k[1..][i] == p;
      LinkedFrom(ring, p, k, i + 1);
      LinkedUnique(ring, p, k, k[i + 1..]);
    }
  }

  lemma {:induction false} NotNull(m: Memory, first: Addr, l: seq<Addr>, p: Addr)
    requires Linked(m, first, l) && p in l
    ensures p != NULL
    decreases l
  {
    if p != l[0] { NotNull(m, m[first], l[1..], p); }
  }

  // ---- the pool ----

  /** Every slot is on the free list, once, or outstanding. */
  ghost predicate Partition(s: Shape, blocks: seq<Addr>, free: seq<Addr>, outstanding: set<Addr>) {
    (forall i: nat, j: nat :: i < j < |free| ==> free[i] != free[j])
    && (forall p :: p in s.Slots(blocks) <==> p in free || p in outstanding)
    && (forall p :: p in free ==> p !in outstanding)
  }

  /** The id of the pool is in front of what is outstanding, and 0 in front of what is free. */
  ghost predicate Marked(s: Shape, blocks: seq<Addr>, outstanding: set<Addr>, ids: map<Addr, nat>, id: nat) {
    forall p :: p in s.Slots(blocks) ==> p in ids && ids[p] == if p in outstanding then id else 0
  }

  /** Only the words listed have changed. */
  ghost predicate KeptBut(m: Memory, now: Memory, l: seq<Addr>) {
    forall a :: a in m && a !in l ==> a in now && now[a] == m[a]
  }

  lemma KeptSelf(m: Memory, l: seq<Addr>)
    ensures KeptBut(m, m, l)
  {}

  lemma KeptMore(m: Memory, now: Memory, l: seq<Addr>, p: Addr, v: Addr)
    requires KeptBut(m, now, l)
    ensures KeptBut(m, now[p := v], [p] + l)
  {
    forall a | a == p || a in l ensures a in [p] + l {
      assert ([p] + l)[0] == p;
    }
  }

  class AllocPool {
    const shape: Shape
    /** ENABLE_CHECKING */
    const checking: bool
    /** the id of the pool; 0 marks free slots */
    const id: nat
    var freeList: Addr
    var eltsAllocated: nat
    var eltsFree: nat
    var blocksAllocated: nat
    var blockList: Addr
    /** the words of the blocks that hold links or what callers put there */
    var memory: Memory
    /** the ids in front of the slots, by slot */
    var ids: map<Addr, nat>
    ghost var free: seq<Addr>
    ghost var blocks: seq<Addr>
    ghost var outstanding: set<Addr>

    /** The free list and the block list. */
    ghost predicate Lists()
      reads this
    {
      Linked(memory, freeList, free) && Linked(memory, blockList, blocks) && shape.Separate(blocks)
      && Partition(shape, blocks, free, outstanding)
    }

    ghost predicate Counts()
      reads this
    {
      eltsFree == |free| && blocksAllocated == |blocks| && eltsAllocated == |blocks| * shape.eltsPerBlock
    }

    ghost predicate Ids()
      reads this
    {
      id != 0 && Marked(shape, blocks, outstanding, ids, id)
    }

    ghost predicate Valid()
      reads this
    {
      shape.Valid() && Lists() && Counts() && (checking ==> Ids())
    }

    /** create_alloc_pool: a slot has at least room for a link, rounded up to a multiple of eight. */
    constructor (size: nat, num: nat, pointerSize: nat, idOffset: nat, checking: bool, id: nat)
      requires num > 0 && pointerSize > 0 && id > 0
      ensures Valid() && free == [] && blocks == [] && outstanding == {} && this.checking == checking
      ensures shape.eltsPerBlock == num && shape.Width() >= size && shape.Width() >= pointerSize && shape.Width() % 8 == 0
      ensures shape.eltSize == shape.Width() + (if checking then idOffset else 0)
      ensures shape.Width() < 8 + (if size < pointerSize then pointerSize else size)
      ensures shape.idOffset == (if checking then idOffset else 0) && shape.pointerSize == pointerSize
      ensures shape.headerSize % 8 == 0 && pointerSize <= shape.headerSize < pointerSize + 8
    {
      var size1 := if size < pointerSize then pointerSize else size;
      size1 := AlignEight(size1);
      var offset := if checking then idOffset else 0;
      shape := Shape(num, size1 + offset, AlignEight(pointerSize), offset, pointerSize);
      this.checking := checking;
      this.id := id;
      freeList, blockList := NULL, NULL;
      eltsAllocated, eltsFree, blocksAllocated := 0, 0, 0;
      memory, ids := map[], map[];
      free, blocks, outstanding := [], [], {};
    }

    /** Putting the slots of a new block onto the free list, one by one. */
    method ThreadSlots(block: Addr, ghost before: seq<Addr>)
      requires shape.Valid() && freeList == NULL && free == [] && blocks == [block] + before && shape.Separate(blocks)
      requires Linked(memory, blockList, blocks) && shape.SlotsOf(block) !! shape.Slots(before)
      modifies `freeList, `memory, `ids, `free
      ensures Linked(memory, freeList, free) && Linked(memory, blockList, blocks)
      ensures |free| == shape.eltsPerBlock && forall p :: p in free <==> p in shape.FirstSlots(block, shape.eltsPerBlock)
      ensures forall j :: 0 <= j < |free| ==> free[j] == shape.Slot(block, shape.eltsPerBlock - 1 - j)
      ensures forall j: nat, k: nat :: j < k < |free| ==> free[j] != free[k]
      ensures checking ==> forall p :: p in free ==> p in ids && ids[p] == 0
      ensures checking ==> forall p :: p in old(ids) && p !in free ==> p in ids && ids[p] == old(ids)[p]
      ensures KeptBut(old(memory), memory, free)
    {
      hide Linked, Shape.Slot, Shape.FirstSlots, Shape.Slots, Shape.SlotsOf, Shape.Apart, Shape.Separate, KeptBut;
      NothingFree(memory, free);
      KeptSelf(memory, free);
      var start := block + shape.headerSize;
      var i := 0;
      SlotFirst(shape, block);
      while i < shape.eltsPerBlock
        invariant 0 <= i <= shape.eltsPerBlock && start + shape.idOffset == shape.Slot(block, i)
        invariant Linked(memory, freeList, free) && Linked(memory, blockList, blocks) && |free| == i
        invariant forall p :: p in free <==> p in shape.FirstSlots(block, i)
        invariant forall j :: 0 <= j < i ==> free[j] == shape.Slot(block, i - 1 - j)
        invariant forall j: nat, k: nat :: j < k < |free| ==> free[j] != free[k]
        invariant checking ==> forall p :: p in free ==> p in ids && ids[p] == 0
        invariant checking ==> forall p :: p in old(ids) && p !in free ==> p in ids && ids[p] == old(ids)[p]
        invariant KeptBut(old(memory), memory, free)
      {
        var header := start + shape.idOffset;
        SlotNext(shape, before, block, i);
        if checking { ids := ids[header := 0]; }
        LinkedMore(memory, freeList, free, header);
        LinkedElsewhere(memory, blockList, blocks, header, freeList);
        KeptMore(old(memory), memory, free, header, freeList);
        memory := memory[header := freeList];
        freeList := header;
        free := [header] + free;
        start := start + shape.eltSize;
        i := i + 1;
      }
    }

    /** The part of pool_alloc that makes a block, at the address malloc gave, and threads its slots. */
    method MakeBlock(block: Addr)
      requires Valid() && freeList == NULL && block != NULL && forall k: nat :: k < |blocks| ==> shape.Apart(block, blocks[k])
      modifies this
      ensures Valid() && blocks == [block] + old(blocks) && outstanding == old(outstanding)
      ensures |free| == shape.eltsPerBlock && forall p :: p in free <==> p in shape.SlotsOf(block)
      ensures forall j :: 0 <= j < |free| ==> free[j] == shape.Slot(block, shape.eltsPerBlock - 1 - j)
      ensures forall a :: a in old(memory) && a != block && a !in shape.SlotsOf(block) ==> a in memory && memory[a] == old(memory)[a]
    {
      hide Linked, Shape.Slot, Shape.FirstSlots, Shape.Slots, Shape.SlotsOf, Shape.Apart, Shape.Separate, Partition, Marked;
      ghost var before, ids0 := blocks, ids;
      NothingFree(memory, free);
      BlockAdded(shape, before, block);
      HeaderNew(shape, before, block, memory, blockList);
      memory := memory[block := blockList];
      blockList := block;
      blocks := [block] + blocks;
      NothingFree(memory, free);
      ThreadSlots(block, before);
      eltsAllocated := eltsAllocated + shape.eltsPerBlock;
      eltsFree := eltsFree + shape.eltsPerBlock;
      blocksAllocated := blocksAllocated + 1;
      OneMoreTimes(|before|, shape.eltsPerBlock);
      AllSlotsOf(shape, block);
      PartitionNew(shape, before, block, free, outstanding);
      if checking { MarkedNew(shape, before, block, free, outstanding, ids0, ids, id); }
    }

    /** pool_alloc; block is what malloc gives if a new block is needed. */
    method PoolAlloc(block: Addr) returns (p: Addr)
      requires Valid() && block != NULL && forall k: nat :: k < |blocks| ==> shape.Apart(block, blocks[k])
      modifies this
      ensures Valid() && p != NULL && p in shape.Slots(blocks) && p !in old(outstanding) && outstanding == old(outstanding) + {p}
      ensures old(free) != [] ==> blocks == old(blocks) && p == old(free[0]) && free == old(free[1..])
      ensures old(free) == [] ==> blocks == [block] + old(blocks) && p in shape.SlotsOf(block) && |free| == shape.eltsPerBlock - 1
      ensures old(free) == [] ==>
        p == shape.Slot(block, shape.eltsPerBlock - 1)
        && forall j :: 0 <= j < |free| ==> free[j] == shape.Slot(block, shape.eltsPerBlock - 2 - j)
      ensures old(free) != [] ==> memory == old(memory)
      ensures forall a :: a in old(memory) && a != block && a !in shape.SlotsOf(block) ==> a in memory && memory[a] == old(memory)[a]
    {
      hide Linked, Partition, Marked, Shape.Slot, Shape.FirstSlots, Shape.Slots, Shape.SlotsOf, Shape.Apart, Shape.Separate;
      NothingFree(memory, free);
      FirstFree(memory, freeList, free);
      if freeList == NULL {
        MakeBlock(block);
        FirstFree(memory, freeList, free);
      }
      PartitionTake(shape, blocks, free, outstanding);
      if checking { MarkedSet(shape, blocks, outstanding, ids, id, free[0], true); }
      p := freeList;
      freeList := memory[p];
      eltsFree := eltsFree - 1;
      if checking { ids := ids[p := id]; }
      free := free[1..];
      outstanding := outstanding + {p};
    }

    /**
     * pool_free for a pointer the pool has handed out; ok says whether the assertion in it holds. With checking that is
     * so exactly when the pointer is outstanding. Without, it is so as long as anything is outstanding, and a pointer
     * that is free already makes the free list a ring.
     */
    method PoolFree(ptr: Addr) returns (ok: bool)
      requires Valid() && ptr in shape.Slots(blocks)
      modifies this
      ensures ok <==> if checking then ptr in old(outstanding) else old(outstanding) != {}
      ensures ptr in old(outstanding) ==>
        ok && Valid() && blocks == old(blocks) && free == [ptr] + old(free) && outstanding == old(outstanding) - {ptr}
      ensures !ok ==> Valid() && blocks == old(blocks) && free == old(free) && outstanding == old(outstanding)
      ensures ok && ptr !in old(outstanding) ==> forall k :: !Linked(memory, freeList, k)
      ensures memory == if ok then old(memory)[ptr := old(freeList)] else old(memory)
    {
      hide Linked, Partition, Marked, Shape.Slot, Shape.FirstSlots, Shape.Slots, Shape.SlotsOf, Shape.Apart, Shape.Separate;
      Conservation(shape, blocks, free, outstanding);
      PartitionHas(shape, blocks, free, outstanding, ptr);
      if checking {
        MarkedHas(shape, blocks, outstanding, ids, id, ptr);
        ok := ids[ptr] == id;
        if !ok { return; }
        MarkedSet(shape, blocks, outstanding, ids, id, ptr, false);
        ids := ids[ptr := 0];
      } else {
        ok := eltsFree < eltsAllocated;
        if !ok { return; }
      }
      if ptr in outstanding {
        PartitionGive(shape, blocks, free, outstanding, ptr);
        OutsideLists(shape, blocks, ptr);
        LinkedMore(memory, freeList, free, ptr);
        LinkedElsewhere(memory, blockList, blocks, ptr, freeList);
      } else {
        DoubleFreeRing(memory, freeList, free, ptr, memory[ptr := freeList]);
      }
      memory := memory[ptr := freeList];
      freeList := ptr;
      eltsFree := eltsFree + 1;
      free := [ptr] + free;
      outstanding := outstanding - {ptr};
    }

    /** The caller writes a word into the slot at p that it holds. */
    method Write(p: Addr, a: Addr, v: Addr)
      requires Valid() && p in outstanding && p <= a && a + shape.pointerSize <= p + shape.Width()
      modifies `memory
      ensures Valid() && memory == old(memory)[a := v]
    {
      hide Linked, Partition, Marked, Shape.Slot, Shape.FirstSlots, Shape.Slots, Shape.SlotsOf, Shape.Apart, Shape.Separate;
      InsideSlot(shape, blocks, free, outstanding, p, a);
      LinkedElsewhere(memory, freeList, free, a, v);
      LinkedElsewhere(memory, blockList, blocks, a, v);
      memory := memory[a := v];
    }

    /** free_alloc_pool: the blocks that are given back. */
    method FreeAllocPool() returns (released: seq<Addr>)
      requires Valid()
      ensures released == blocks
    {
      released := [];
      var block := blockList;
      ghost var rest := blocks;
      while block != NULL
        invariant Linked(memory, block, rest) && blocks == released + rest
        decreases |rest|
      {
        var nextBlock := memory[block];
        released := released + [block];
        block := nextBlock;
        rest := rest[1..];
      }
    }

    /** free_alloc_pool_if_empty frees the pool exactly when nothing is outstanding. */
    method FreeIfEmpty() returns (freed: bool, released: seq<Addr>)
      requires Valid()
      ensures freed <==> outstanding == {}
      ensures released == if freed then blocks else []
    {
      Conservation(shape, blocks, free, outstanding);
      freed := eltsFree == eltsAllocated;
      released := [];
      if freed { released := FreeAllocPool(); }
    }
  }

  /** What is free and what is outstanding together are all slots of all blocks. */
  lemma Conservation(s: Shape, blocks: seq<Addr>, free: seq<Addr>, outstanding: set<Addr>)
    requires s.Valid() && s.Separate(blocks) && Partition(s, blocks, free, outstanding)
    ensures |free| + |outstanding| == |blocks| * s.eltsPerBlock && (outstanding == {} <==> |free| == |blocks| * s.eltsPerBlock)
  {
    hide Shape.Slots, Shape.Separate;
    SlotsCount(s, blocks);
    DistinctSize(free);
    assert s.Slots(blocks) == Members(free) + outstanding && Members(free) !! outstanding;
  }

  function Members(l: seq<Addr>): (m: set<Addr>)
    ensures forall p :: p in m <==> p in l
  {
    if l == [] then {} else {l[0]} + Members(l[1..])
  }

  lemma {:induction false} DistinctSize(l: seq<Addr>)
    requires forall i: nat, j: nat :: i < j < |l| ==> l[i] != l[j]
    ensures |Members(l)| == |l|
  {
    if l != [] {
      DistinctSize(l[1..]);
      assert l[0] !in l[1..];
    }
  }

  lemma FirstFree(m: Memory, first: Addr, free: seq<Addr>)
    requires Linked(m, first, free)
    ensures if free == [] then first == NULL else first == free[0] != NULL && first in m && Linked(m, m[first], free[1..])
  {}

  lemma PartitionTake(s: Shape, blocks: seq<Addr>, free: seq<Addr>, outstanding: set<Addr>)
    requires Partition(s, blocks, free, outstanding) && free != []
    ensures free[0] !in outstanding && free[0] in s.Slots(blocks) && Partition(s, blocks, free[1..], outstanding + {free[0]})
  {
    hide Shape.Slots;
    assert free == [free[0]] + free[1..];
  }

  lemma PartitionGive(s: Shape, blocks: seq<Addr>, free: seq<Addr>, outstanding: set<Addr>, p: Addr)
    requires Partition(s, blocks, free, outstanding) && p in outstanding
    ensures p !in free && Partition(s, blocks, [p] + free, outstanding - {p})
  {
    hide Shape.Slots;
  }

  lemma PartitionHas(s: Shape, blocks: seq<Addr>, free: seq<Addr>, outstanding: set<Addr>, p: Addr)
    requires Partition(s, blocks, free, outstanding) && p in s.Slots(blocks)
    ensures p in free <==> p !in outstanding
  {}

  lemma MarkedSet(s: Shape, blocks: seq<Addr>, outstanding: set<Addr>, ids: map<Addr, nat>, id: nat, p: Addr, taken: bool)
    requires Marked(s, blocks, outstanding, ids, id)
    ensures Marked(s, blocks, if taken then outstanding + {p} else outstanding - {p}, ids[p := if taken then id else 0], id)
  {
    hide Shape.Slots;
  }

  lemma MarkedHas(s: Shape, blocks: seq<Addr>, outstanding: set<Addr>, ids: map<Addr, nat>, id: nat, p: Addr)
    requires Marked(s, blocks, outstanding, ids, id) && p in s.Slots(blocks) && id != 0
    ensures p in ids && (ids[p] == id <==> p in outstanding)
  {}

  lemma OutsideLists(s: Shape, blocks: seq<Addr>, p: Addr)
    requires s.Valid() && s.Separate(blocks) && p in s.Slots(blocks)
    ensures p != NULL && p !in blocks
  {
    var k := SlotBlock(s, blocks, p);
    HeaderApart(s, blocks, p, k);
    forall i: nat | i < |blocks| ensures blocks[i] != p { HeaderApart(s, blocks, p, i); }
  }

  /** A word inside a slot is no link of the free list, unless that slot is free, nor of the block list. */
  lemma InsideSlot(s: Shape, blocks: seq<Addr>, free: seq<Addr>, outstanding: set<Addr>, p: Addr, a: Addr)
    requires s.Valid() && s.Separate(blocks) && Partition(s, blocks, free, outstanding) && p in outstanding
    requires p <= a < p + s.Width()
    ensures a !in free && a !in blocks
  {
    hide Shape.Slots, Shape.Separate, Shape.Width;
    forall q | q in free ensures q != a { SlotsApart(s, blocks, p, q); }
    forall i: nat | i < |blocks| ensures blocks[i] != a { HeaderApart(s, blocks, p, i); }
  }

  lemma PartitionNew(s: Shape, blocks: seq<Addr>, b: Addr, free: seq<Addr>, outstanding: set<Addr>)
    requires Partition(s, blocks, [], outstanding) && s.SlotsOf(b) !! s.Slots(blocks)
    requires s.Slots([b] + blocks) == s.SlotsOf(b) + s.Slots(blocks) && forall p :: p in free <==> p in s.SlotsOf(b)
    requires forall j: nat, k: nat :: j < k < |free| ==> free[j] != free[k]
    ensures Partition(s, [b] + blocks, free, outstanding)
  {
    hide Shape.Slots, Shape.SlotsOf;
  }

  lemma MarkedNew(s: Shape, blocks: seq<Addr>, b: Addr, free: seq<Addr>, outstanding: set<Addr>, ids0: map<Addr, nat>, ids: map<Addr, nat>, id: nat)
    requires Partition(s, blocks, [], outstanding) && Marked(s, blocks, outstanding, ids0, id) && s.SlotsOf(b) !! s.Slots(blocks)
    requires s.Slots([b] + blocks) == s.SlotsOf(b) + s.Slots(blocks) && forall p :: p in free <==> p in s.SlotsOf(b)
    requires forall p :: p in free ==> p in ids && ids[p] == 0
    requires forall p :: p in ids0 && p !in free ==> p in ids && ids[p] == ids0[p]
    ensures Marked(s, [b] + blocks, outstanding, ids, id)
  {
    hide Shape.Slots, Shape.SlotsOf;
  }

  lemma NothingFree(m: Memory, free: seq<Addr>)
    ensures Linked(m, NULL, free) <==> free == []
  {}

  lemma SlotFirst(s: Shape, b: Addr)
    ensures s.Slot(b, 0) == b + s.headerSize + s.idOffset && s.FirstSlots(b, 0) == {}
  {}

  lemma AllSlotsOf(s: Shape, b: Addr)
    ensures s.SlotsOf(b) == s.FirstSlots(b, s.eltsPerBlock)
  {}

  lemma BlockAdded(s: Shape, blocks: seq<Addr>, b: Addr)
    requires s.Valid() && s.Separate(blocks) && b != NULL && forall k: nat :: k < |blocks| ==> s.Apart(b, blocks[k])
    ensures s.Separate([b] + blocks) && s.Slots([b] + blocks) == s.SlotsOf(b) + s.Slots(blocks) && s.SlotsOf(b) !! s.Slots(blocks)
  {
    var l := [b] + blocks;
    assert l[1..] == blocks;
    NewSlots(s, blocks, b);
    forall i: nat, j: nat | i < j < |l| ensures s.Apart(l[i], l[j]) {
      if i > 0 { assert s.Apart(blocks[i - 1], blocks[j - 1]); }
    }
  }

  lemma HeaderNew(s: Shape, blocks: seq<Addr>, b: Addr, m: Memory, first: Addr)
    requires s.Valid() && b != NULL && (forall k: nat :: k < |blocks| ==> s.Apart(b, blocks[k])) && Linked(m, first, blocks)
    ensures Linked(m[b := first], b, [b] + blocks)
  {
    assert b !in blocks;
    LinkedElsewhere(m, first, blocks, b, first);
    assert ([b] + blocks)[1..] == blocks;
  }

  lemma LinkedMore(m: Memory, first: Addr, l: seq<Addr>, p: Addr)
    requires Linked(m, first, l) && p !in l && p != NULL
    ensures Linked(m[p := first], p, [p] + l)
  {
    LinkedElsewhere(m, first, l, p, first);
    assert ([p] + l)[1..] == l;
  }

  /** The next slot of a new block is no header and none of the slots there are. */
  lemma SlotNext(s: Shape, blocks: seq<Addr>, b: Addr, i: nat)
    requires s.Valid() && s.Separate([b] + blocks) && i < s.eltsPerBlock && s.SlotsOf(b) !! s.Slots(blocks)
    ensures s.Slot(b, i) != NULL && s.Slot(b, i) !in [b] + blocks
    ensures s.Slot(b, i) !in s.FirstSlots(b, i) && s.Slot(b, i) !in s.Slots(blocks)
    ensures s.FirstSlots(b, i + 1) == s.FirstSlots(b, i) + {s.Slot(b, i)} && s.Slot(b, i + 1) == s.Slot(b, i) + s.eltSize
  {
    var l := [b] + blocks;
    var p := s.Slot(b, i);
    NextSlotNew(s, b, i);
    SlotMember(s, b, i, s.eltsPerBlock);
    assert l[1..] == blocks && s.Slots(l) == s.SlotsOf(b) + s.Slots(blocks);
    forall k: nat | k < |l| ensures p != l[k] && p != NULL { HeaderApart(s, l, p, k); }
    assert l[0] == b;
  }

  lemma {:induction false} SlotMember(s: Shape, b: Addr, i: nat, n: nat)
    requires i < n
    ensures s.Slot(b, i) in s.FirstSlots(b, n)
  {
    if i < n - 1 { SlotMember(s, b, i, n - 1); }
  }

  // ---- whole runs ----

  /** Take a slot, give the k-th held one back, or write a word at some offset into it. */
  datatype Request = Take | Give(k: nat) | Put(k: nat, offset: nat, value: Addr)

  function Without<T>(l: seq<T>, k: nat): seq<T>
    requires k < |l|
  {
    l[..k] + l[k + 1..]
  }

  /** The words written into a slot, by their offset. */
  type Words = map<nat, Addr>

  /** A word is written, over whatever it overlaps. */
  function Overwritten(w: Words, offset: nat, value: Addr, wordSize: nat): Words {
    (map o | o in w && (o + wordSize <= offset || offset + wordSize <= o) :: w[o])[offset := value]
  }

  /** What the caller has written into the slots it holds after one more request. */
  function Served(request: Request, held: seq<Words>, wordSize: nat, width: nat): seq<Words> {
    match request
    case Take => held + [map[]]
    case Give(k) => if k < |held| then Without(held, k) else held
    case Put(k, offset, value) =>
      if k < |held| && offset + wordSize <= width then held[k := Overwritten(held[k], offset, value, wordSize)] else held
  }

  /** And after the first n requests, since each slot was taken. */
  function Written(requests: seq<Request>, n: nat, wordSize: nat, width: nat): seq<Words>
    requires n <= |requests|
  {
    if n == 0 then [] else Served(requests[n - 1], Written(requests, n - 1, wordSize, width), wordSize, width)
  }

  /** It is still there. */
  ghost predicate StillThere(m: Memory, held: seq<Addr>, words: seq<Words>, wordSize: nat, width: nat) {
    |held| == |words| && forall k :: 0 <= k < |held| ==> InSlot(m, held[k], words[k], wordSize, width)
  }

  ghost predicate InSlot(m: Memory, p: Addr, w: Words, wordSize: nat, width: nat) {
    forall o :: o in w ==> o + wordSize <= width && p + o in m && m[p + o] == w[o]
  }

  lemma StillAfterTake(s: Shape, blocks: seq<Addr>, b: Addr, m: Memory, now: Memory, held: seq<Addr>, words: seq<Words>, p: Addr)
    requires s.Valid() && s.pointerSize > 0 && s.headerSize > 0 && s.Separate(blocks) && b != NULL
    requires forall k: nat :: k < |blocks| ==> s.Apart(b, blocks[k])
    requires StillThere(m, held, words, s.pointerSize, s.Width()) && forall k :: 0 <= k < |held| ==> held[k] in s.Slots(blocks)
    requires forall a :: a in m && a != b && a !in s.SlotsOf(b) ==> a in now && now[a] == m[a]
    ensures StillThere(now, held + [p], words + [map[]], s.pointerSize, s.Width())
  {
    hide Shape.Slots, Shape.SlotsOf, Shape.Apart, Shape.Separate, Shape.Width;
    BlockAdded(s, blocks, b);
    forall k | 0 <= k < |held| ensures InSlot(now, held[k], words[k], s.pointerSize, s.Width()) {
      assert InSlot(m, held[k], words[k], s.pointerSize, s.Width());
      HeaderApart(s, [b] + blocks, held[k], 0);
      forall q | q in s.SlotsOf(b) ensures q + s.Width() <= held[k] || held[k] + s.Width() <= q {
        SlotsApart(s, [b] + blocks, held[k], q);
      }
    }
  }

  lemma StillAfterGive(s: Shape, blocks: seq<Addr>, m: Memory, held: seq<Addr>, words: seq<Words>, i: nat, v: Addr)
    requires s.Valid() && s.pointerSize > 0 && s.Separate(blocks) && i < |held|
    requires StillThere(m, held, words, s.pointerSize, s.Width()) && forall k :: 0 <= k < |held| ==> held[k] in s.Slots(blocks)
    requires forall j: nat, k: nat :: j < k < |held| ==> held[j] != held[k]
    ensures StillThere(m[held[i] := v], Without(held, i), Without(words, i), s.pointerSize, s.Width())
  {
    hide Shape.Slots, Shape.Separate, Shape.Width;
    forall k | 0 <= k < |held| && k != i ensures InSlot(m[held[i] := v], held[k], words[k], s.pointerSize, s.Width()) {
      assert InSlot(m, held[k], words[k], s.pointerSize, s.Width());
      assert held[k] != held[i];
      SlotsApart(s, blocks, held[k], held[i]);
    }
  }

  lemma StillAfterPut(s: Shape, blocks: seq<Addr>, m: Memory, held: seq<Addr>, words: seq<Words>, i: nat, offset: nat, v: Addr)
    requires s.Valid() && s.pointerSize > 0 && s.Separate(blocks) && i < |held| && offset + s.pointerSize <= s.Width()
    requires StillThere(m, held, words, s.pointerSize, s.Width()) && forall k :: 0 <= k < |held| ==> held[k] in s.Slots(blocks)
    requires forall j: nat, k: nat :: j < k < |held| ==> held[j] != held[k]
    ensures StillThere(m[held[i] + offset := v], held, words[i := Overwritten(words[i], offset, v, s.pointerSize)], s.pointerSize, s.Width())
  {
    hide Shape.Slots, Shape.Separate, Shape.Width;
    var now := words[i := Overwritten(words[i], offset, v, s.pointerSize)];
    forall k | 0 <= k < |held| ensures InSlot(m[held[i] + offset := v], held[k], now[k], s.pointerSize, s.Width()) {
      assert InSlot(m, held[k], words[k], s.pointerSize, s.Width());
      if k != i {
        assert held[k] != held[i];
        SlotsApart(s, blocks, held[k], held[i]);
      }
    }
  }

  lemma WithoutIs(l: seq<Addr>, k: nat)
    requires k < |l| && forall i: nat, j: nat :: i < j < |l| ==> l[i] != l[j]
    ensures forall i: nat, j: nat :: i < j < |l| - 1 ==> Without(l, k)[i] != Without(l, k)[j]
    ensures forall p :: p in Without(l, k) <==> p in l && p != l[k]
  {
    assert l == l[..k] + [l[k]] + l[k + 1..];
  }

  /** The addresses malloc gives are never null, and blocks there do not overlap. */
  ghost predicate GoodMalloc(s: Shape, malloc: nat -> Addr) {
    (forall i: nat :: malloc(i) != NULL) && forall i: nat, j: nat :: i != j ==> s.Apart(malloc(i), malloc(j))
  }

  /**
   * After any requests to a new pool, what the caller holds is distinct, does not overlap, and is what the pool
   * takes to be outstanding; the difference of the counters is its number. What it has written into a slot since it was
   * taken is still there. No pool_free on the way failed.
   */
  method Run(pool: AllocPool, requests: seq<Request>, malloc: nat -> Addr) returns (held: seq<Addr>)
    requires pool.Valid() && pool.blocks == [] && pool.outstanding == {} && GoodMalloc(pool.shape, malloc)
    modifies pool
    ensures pool.Valid() && forall p :: p in held <==> p in pool.outstanding
    ensures forall i: nat, j: nat :: i < j < |held| ==>
      held[i] + pool.shape.Width() <= held[j] || held[j] + pool.shape.Width() <= held[i]
    ensures pool.eltsAllocated - pool.eltsFree == |held|
    ensures pool.shape.Valid()
    ensures StillThere(pool.memory, held, Written(requests, |requests|, pool.shape.pointerSize, pool.shape.Width()),
                       pool.shape.pointerSize, pool.shape.Width())
  {
    hide AllocPool.Valid, Shape.Slots, Shape.SlotsOf, Shape.Apart, Shape.Width, StillThere, Overwritten, Shape.Separate, Holding;
    PoolFacts(pool);
    held := [];
    NothingWritten(pool.memory, pool.shape.pointerSize, pool.shape.Width());
    NothingHeld(pool);
    for n := 0 to |requests|
      invariant Holding(pool, held)
      invariant forall k: nat :: k < |pool.blocks| ==> pool.blocks[k] == malloc(|pool.blocks| - 1 - k)
      invariant StillThere(pool.memory, held, Written(requests, n, pool.shape.pointerSize, pool.shape.Width()),
                           pool.shape.pointerSize, pool.shape.Width())
    {
      held := Serve(pool, requests[n], malloc, held, Written(requests, n, pool.shape.pointerSize, pool.shape.Width()));
    }
    HoldingFacts(pool, held);
    PoolFacts(pool);
    HeldApart(pool, held);
  }

  /** The caller holds what is outstanding, each slot once. */
  ghost predicate Holding(pool: AllocPool, held: seq<Addr>)
    reads pool
  {
    && pool.Valid() && (forall p :: p in held <==> p in pool.outstanding)
    && forall i: nat, j: nat :: i < j < |held| ==> held[i] != held[j]
  }

  lemma NothingHeld(pool: AllocPool)
    requires pool.Valid() && pool.outstanding == {}
    ensures Holding(pool, [])
  {}

  lemma HoldingFacts(pool: AllocPool, held: seq<Addr>)
    requires Holding(pool, held)
    ensures pool.Valid() && (forall p :: p in held <==> p in pool.outstanding)
    ensures forall i: nat, j: nat :: i < j < |held| ==> held[i] != held[j]
  {}

  /** One request. */
  method Serve(pool: AllocPool, request: Request, malloc: nat -> Addr, held: seq<Addr>, ghost words: seq<Words>) returns (now: seq<Addr>)
    requires Holding(pool, held) && GoodMalloc(pool.shape, malloc) && pool.shape.Valid()
    requires forall k: nat :: k < |pool.blocks| ==> pool.blocks[k] == malloc(|pool.blocks| - 1 - k)
    requires StillThere(pool.memory, held, words, pool.shape.pointerSize, pool.shape.Width())
    modifies pool
    ensures Holding(pool, now)
    ensures forall k: nat :: k < |pool.blocks| ==> pool.blocks[k] == malloc(|pool.blocks| - 1 - k)
    ensures StillThere(pool.memory, now, Served(request, words, pool.shape.pointerSize, pool.shape.Width()),
                       pool.shape.pointerSize, pool.shape.Width())
  {
    hide AllocPool.Valid, Shape.Slots, Shape.SlotsOf, Shape.Apart, Shape.Width, StillThere, Overwritten, Shape.Separate;
    PoolFacts(pool);
    ghost var was, blocks := pool.memory, pool.blocks;
    AsMany(was, held, words, pool.shape.pointerSize, pool.shape.Width());
    now := held;
    match request
    case Take =>
      var block := malloc(pool.blocksAllocated);
      var p := pool.PoolAlloc(block);
      StillAfterTake(pool.shape, blocks, block, was, pool.memory, held, words, p);
      now := held + [p];
    case Give(k) =>
      if k < |held| {
        var ok := pool.PoolFree(held[k]);
        assert ok;
        WithoutIs(held, k);
        StillAfterGive(pool.shape, blocks, was, held, words, k, pool.memory[held[k]]);
        now := Without(held, k);
      }
    case Put(k, offset, value) =>
      if k < |held| && offset + pool.shape.pointerSize <= pool.shape.Width() {
        pool.Write(held[k], held[k] + offset, value);
        StillAfterPut(pool.shape, blocks, was, held, words, k, offset, value);
      }
  }

  lemma NothingWritten(m: Memory, wordSize: nat, width: nat)
    ensures StillThere(m, [], [], wordSize, width)
  {}

  lemma AsMany(m: Memory, held: seq<Addr>, words: seq<Words>, wordSize: nat, width: nat)
    requires StillThere(m, held, words, wordSize, width)
    ensures |held| == |words|
  {}

  lemma PoolFacts(pool: AllocPool)
    requires pool.Valid()
    ensures pool.shape.Valid() && pool.shape.pointerSize > 0 && pool.shape.headerSize > 0 && pool.shape.Separate(pool.blocks)
    ensures pool.blocksAllocated == |pool.blocks|
    ensures forall p :: p in pool.outstanding ==> p in pool.shape.Slots(pool.blocks)
  {}

  lemma HeldApart(pool: AllocPool, held: seq<Addr>)
    requires pool.Valid() && forall p :: p in held <==> p in pool.outstanding
    requires forall i: nat, j: nat :: i < j < |held| ==> held[i] != held[j]
    ensures forall i: nat, j: nat :: i < j < |held| ==>
      held[i] + pool.shape.Width() <= held[j] || held[j] + pool.shape.Width() <= held[i]
    ensures pool.eltsAllocated - pool.eltsFree == |held|
  {
    hide Shape.Slots, Shape.Width, Shape.Separate;
    Conservation(pool.shape, pool.blocks, pool.free, pool.outstanding);
    DistinctSize(held);
    assert Members(held) == pool.outstanding;
    forall i: nat, j: nat | i < j < |held|
      ensures held[i] + pool.shape.Width() <= held[j] || held[j] + pool.shape.Width() <= held[i]
    {
      SlotsApart(pool.shape, pool.blocks, held[i], held[j]);
    }
  }
}
