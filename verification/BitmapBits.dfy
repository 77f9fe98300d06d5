/** Looking up, setting, clearing and testing one bit: bitmap_find_bit and its users. */
module BitmapBits {
  import opened Words
  import opened Blocks
  import opened Obstacks
  import opened Bitmaps

  /** The forward search loop of bitmap_find_bit. */
  method SearchForward(head: Bitmap, from: Element, indx: nat, ghost c: nat) returns (element: Element, ghost k: nat)
    requires head.Links() && Canonical(head.blocks)
    requires c < |head.elems| && from == head.elems[c] && (c == 0 || from.indx < indx)
    ensures k < |head.elems| && element == head.elems[k] && Near(head.blocks, k, indx)
  {
    hide Bitmap.Linked, Bitmap.Holding, Bitmap.Node;
    element, k := from, c;
    head.NodeAt(k);
    while element.next != null && element.indx < indx
      invariant k < |head.elems| && element == head.elems[k]
      invariant k > 0 ==> head.blocks[k - 1].indx < indx
      decreases |head.elems| - k
    {
      head.NodeAt(k);
      element, k := element.next, k + 1;
    }
    head.NodeAt(k);
  }

  /** The backward search loop of bitmap_find_bit. */
  method SearchBackward(head: Bitmap, from: Element, indx: nat, ghost c: nat) returns (element: Element, ghost k: nat)
    requires head.Links() && Canonical(head.blocks)
    requires c < |head.elems| && from == head.elems[c] && indx < from.indx
    ensures k < |head.elems| && element == head.elems[k] && Near(head.blocks, k, indx)
  {
    hide Bitmap.Linked, Bitmap.Holding, Bitmap.Node;
    element, k := from, c;
    head.NodeAt(k);
    while element.prev != null && element.indx > indx
      invariant k < |head.elems| && element == head.elems[k]
      invariant k + 1 < |head.elems| ==> indx < head.blocks[k + 1].indx
      decreases k
    {
      head.NodeAt(k);
      element, k := element.prev, k - 1;
    }
    head.NodeAt(k);
  }

  /** bitmap_find_bit. Searches from `current` or from `first`, whichever is closer, and moves `current` there;
      k is the position of `current` afterwards. */
  method FindBit(head: Bitmap, bit: nat) returns (element: Element?, ghost k: nat)
    requires head.Valid()
    modifies head`current, head`indx
    ensures head.Valid()
    ensures head.elems == [] ==> element == null
    ensures head.elems != [] ==>
              Near(head.blocks, k, bit / ELEMENT_BITS) && k < |head.elems| && head.current == head.elems[k]
    ensures element != null ==> head.elems != [] && element == head.elems[k] && head.blocks[k].indx == bit / ELEMENT_BITS
    ensures element == null ==> forall m :: 0 <= m < |head.blocks| ==> head.blocks[m].indx != bit / ELEMENT_BITS
  {
    hide Bitmap.Linked, Bitmap.Holding, Bitmap.Node, Bitmap.Links, Canonical, Sorted, NonZero, Sized, Near;
    head.Ends();
    var indx := bit / ELEMENT_BITS;
    element, k := head.current, 0;
    if element != null {
      k :| 0 <= k < |head.elems| && head.elems[k] == element;
      head.NodeAt(k);
      if head.indx == indx {
        NearHit(head.blocks, k);
      } else if head.indx < indx {
        // Beyond head.indx: search from current forward.
        element, k := SearchForward(head, element, indx, k);
      } else if head.indx / 2 < indx {
        // Before head.indx but closer to it than to 0: search from current backward.
        element, k := SearchBackward(head, element, indx, k);
      } else {
        // Closer to 0: search from first forward.
        element, k := SearchForward(head, head.first, indx, 0);
      }
      head.NodeAt(k);
      NearOnly(head.blocks, k, indx);
      head.current := element;
      head.indx := element.indx;
      if element.indx != indx {
        element := null;
      }
    }
  }

  /** The backward loop of bitmap_element_link: from an element beyond indx to the first such element. */
  method FirstBeyond(head: Bitmap, from: Element, indx: nat, ghost c: nat) returns (ptr: Element, ghost k: nat)
    requires head.Links() && Canonical(head.blocks)
    requires c < |head.elems| && from == head.elems[c] && indx < from.indx
    ensures k < |head.elems| == |head.blocks| && ptr == head.elems[k] && indx < head.blocks[k].indx
    ensures k > 0 ==> head.blocks[k - 1].indx <= indx
  {
    hide Bitmap.Linked, Bitmap.Holding, Bitmap.Node, Canonical;
    ptr, k := from, c;
    head.NodeAt(k);
    while ptr.prev != null && ptr.prev.indx > indx
      invariant k < |head.elems| == |head.blocks| && ptr == head.elems[k] && indx < head.blocks[k].indx
      decreases k
    {
      head.NodeAt(k);
      head.NodeAt(k - 1);
      ptr, k := ptr.prev, k - 1;
    }
    head.NodeAt(k);
    if k > 0 { head.NodeAt(k - 1); }
  }

  /** The forward loop of bitmap_element_link: from an element not beyond indx to the last one below it. */
  method LastBelow(head: Bitmap, from: Element, indx: nat, ghost c: nat) returns (ptr: Element, ghost k: nat)
    requires head.Links() && Canonical(head.blocks)
    requires c < |head.elems| && from == head.elems[c] && from.indx < indx
    ensures k < |head.elems| == |head.blocks| && ptr == head.elems[k] && head.blocks[k].indx < indx
    ensures k + 1 < |head.blocks| ==> indx <= head.blocks[k + 1].indx
  {
    hide Bitmap.Linked, Bitmap.Holding, Bitmap.Node, Canonical;
    ptr, k := from, c;
    head.NodeAt(k);
    while ptr.next != null && ptr.next.indx < indx
      invariant k < |head.elems| == |head.blocks| && ptr == head.elems[k] && head.blocks[k].indx < indx
      decreases |head.elems| - k
    {
      head.NodeAt(k);
      head.NodeAt(k + 1);
      ptr, k := ptr.next, k + 1;
    }
    head.NodeAt(k);
    if k + 1 < |head.elems| { head.NodeAt(k + 1); }
  }

  predicate FitsAt(bs: seq<Block>, k: nat, indx: nat) {
    k <= |bs| && (k > 0 ==> bs[k - 1].indx < indx) && (k < |bs| ==> indx < bs[k].indx)
  }

  /** bitmap_element_link: a new element with an index not yet in the list goes to its place, at position k,
      and becomes `current`. */
  method ElementLink(head: Bitmap, element: Element) returns (ghost k: nat)
    requires head.Valid() && element.place == InTransit && element !in head.elems
    requires |element.bits| == ELEMENT_WORDS && element.bits != ZEROS
    requires forall m :: 0 <= m < |head.blocks| ==> head.blocks[m].indx != element.indx
    modifies head, head.elems`next, head.elems`prev, element`next, element`prev, element`place
    ensures head.Valid() && head.current == element
    ensures FitsAt(old(head.blocks), k, element.indx)
    ensures head.elems == old(head.elems)[..k] + [element] + old(head.elems)[k..]
    ensures head.blocks == With(old(head.blocks), k, Block(element.indx, element.bits))
  {
    hide Bitmap.Linked, Bitmap.Holding, Bitmap.Node, Bitmap.Links, Canonical, Sorted, NonZero, Sized, With;
    head.Ends();
    var indx := element.indx;
    if head.first == null {
      head.LinkOnly(element);
      k := 0;
      assert With([], 0, Block(element.indx, element.bits)) == [Block(element.indx, element.bits)] by { WithNil(Block(element.indx, element.bits)); }
    } else {
      ghost var c :| 0 <= c < |head.elems| && head.elems[c] == head.current;
      head.NodeAt(c);
      var ptr;
      if indx < head.indx {
        ptr, k := FirstBeyond(head, head.current, indx, c);
        head.LinkBefore(element, ptr, k);
      } else {
        ptr, k := LastBelow(head, head.current, indx, c);
        k := k + 1;
        head.LinkBehind(element, ptr, k);
      }
    }
    WithShape(old(head.blocks), k, Block(element.indx, element.bits));
    head.current := element;
    head.indx := indx;
    assert head.elems[k] == element;
  }

  /** The first case of bitmap_set_bit: a new element for the bit. */
  method AddElement(head: Bitmap, bit: nat)
    requires head.Valid() && head.obstack.Valid()
    requires forall m :: 0 <= m < |head.blocks| ==> head.blocks[m].indx != bit / ELEMENT_BITS
    modifies head, head.elems, head.obstack, head.obstack.free
    ensures head.Valid() && head.obstack.Valid() && head.Conserves()
    ensures Members(head.blocks) == Members(old(head.blocks)) + iset{bit}
  {
    hide Bitmap.Linked, Bitmap.Holding, Bitmap.Node, Bitmap.Links, Obstack.Valid, Obstack.Linked,
      Canonical, Sorted, NonZero, Sized, With, Members, WithBit;
    head.Ends();
    head.Apart();
    var ptr := head.obstack.Allocate();
    ptr.indx := bit / ELEMENT_BITS;
    ptr.bits := WithBit(ptr.bits, bit);
    WithBitNonZero(ZEROS, bit);
    ghost var k := ElementLink(head, ptr);
    AddBitMeaning(old(head.blocks), k, bit);
    TakeBoth(old(head.elems), k, ptr, old(head.obstack.free), head.obstack.free);
  }

  /** bitmap_set_bit */
  method SetBit(head: Bitmap, bit: nat)
    requires head.Valid() && head.obstack.Valid()
    modifies head, head.elems, head.obstack, head.obstack.free
    ensures head.Valid() && head.obstack.Valid() && head.Conserves()
    ensures Members(head.blocks) == Members(old(head.blocks)) + iset{bit}
  {
    hide Bitmap.Linked, Bitmap.Holding, Bitmap.Node, Bitmap.Links, Obstack.Valid, Obstack.Linked,
      Canonical, Sorted, NonZero, Sized, With, Members, WithBit;
    var ptr, k := FindBit(head, bit);
    if ptr == null {
      AddElement(head, bit);
    } else {
      head.Apart();
      InCanonical(head.blocks, k, bit);
      SetBitMeaning(head.blocks, k, bit);
      head.NodeAt(k);
      head.WriteBits(ptr, k, WithBit(ptr.bits, bit));
    }
  }

  /** bitmap_clear_bit */
  method ClearBit(head: Bitmap, bit: nat)
    requires head.Valid() && head.obstack.Valid()
    modifies head, head.obstack, head.elems
    ensures head.Valid() && head.obstack.Valid() && head.Conserves()
    ensures Members(head.blocks) == Members(old(head.blocks)) - iset{bit}
  {
    hide Bitmap.Linked, Bitmap.Holding, Bitmap.Node, Bitmap.Links, Obstack.Valid, Obstack.Linked,
      Canonical, Sorted, NonZero, Sized, Members, WithoutBit;
    var ptr, k := FindBit(head, bit);
    head.Apart();
    if ptr != null {
      InCanonical(head.blocks, k, bit);
      ClearBitMeaning(head.blocks, k, bit);
      head.NodeAt(k);
      head.WriteBits(ptr, k, WithoutBit(ptr.bits, bit));
      // If nothing is left in the element, free it.
      if ptr.bits == ZEROS {
        head.ElementFree(ptr, k);
      }
    } else {
      AbsentMeaning(head.blocks, bit);
    }
  }

  /** bitmap_bit_p */
  method BitP(head: Bitmap, bit: nat) returns (isSet: bool)
    requires head.Valid()
    modifies head`current, head`indx
    ensures head.Valid()
    ensures isSet <==> bit in Members(head.blocks)
    ensures isSet ==> head.current != null && head.current.indx == bit / ELEMENT_BITS
  {
    hide Bitmap.Linked, Bitmap.Holding, Bitmap.Node, Bitmap.Links, Canonical, Sorted, NonZero, Sized, BitOf;
    var ptr, k := FindBit(head, bit);
    if ptr == null {
      AbsentMeaning(head.blocks, bit);
      return false;
    }
    head.NodeAt(k);
    InCanonical(head.blocks, k, bit);
    isSet := BitOf(ptr.bits, bit);
  }

  /** bitmap_clear */
  method Clear(head: Bitmap)
    requires head.Valid() && head.obstack.Valid()
    modifies head, head.obstack, head.elems
    ensures head.Valid() && head.obstack.Valid() && head.Conserves()
    ensures head.blocks == []
  {
    hide Bitmap.Linked, Bitmap.Holding, Bitmap.Node, Bitmap.Links, Obstack.Valid, Obstack.Linked;
    head.Ends();
    if head.first != null {
      head.ClearFrom(head.first, 0);
    }
  }
}
