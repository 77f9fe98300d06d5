/** bitmap_element and bitmap_obstack: the list nodes, and the free list of lists they are taken from. */
module Obstacks {
  import opened Words
  import opened Blocks

  /** Where an element is. On the free list: how many elements come after it, and the first element of the
      next inner list. */
  datatype Place = InTransit | InBitmap(bitmap: object) | OnFreeList(obstack: object, rank: nat, outer: Element?)

  class Element {
    var next: Element?
    var prev: Element?
    var indx: nat
    var bits: seq<Word>
    ghost var place: Place
  }

  /** bitmap_zero_bits, an element of no bitmap. */
  method ZeroElement() returns (zero: Element)
    ensures fresh(zero) && zero.next == null && zero.indx == 0 && zero.bits == ZEROS
  {
    zero := new Element;
    zero.next, zero.indx, zero.bits := null, 0, ZEROS;
  }

  /** The element at position i, or null beyond either end. */
  ghost function Nth(es: seq<Element>, i: int): Element? {
    if 0 <= i < |es| then es[i] else null
  }

  class Obstack {
    var elements: Element?
    ghost var free: seq<Element>  // in the order in which they would be allocated

    /** Element i is linked by next to its successor on the same inner list, or ends the inner list;
        the first element of an inner list is linked by prev to the next inner list. */
    ghost predicate Linked(i: nat)
      requires i < |free| && free[i].place.OnFreeList?
      requires i + 1 < |free| ==> free[i + 1].place.OnFreeList?
      reads this, free
    {
      && (free[i].next == null ==> free[i].place.outer == Nth(free, i + 1))
      && (free[i].next != null ==>
            i + 1 < |free| && free[i].next == free[i + 1] && free[i].place.outer == free[i + 1].place.outer)
      && (i == 0 || free[i - 1].next == null ==> free[i].prev == free[i].place.outer)
    }

    ghost predicate Valid()
      reads this, free
    {
      && elements == Nth(free, 0)
      && (forall i :: 0 <= i < |free| ==>
            free[i].place.OnFreeList? && free[i].place.obstack == this && free[i].place.rank == |free| - 1 - i)
      && (forall i :: 0 <= i < |free| ==> Linked(i))
    }

    constructor ()
      ensures Valid() && free == []
    {
      elements := null;
      free := [];
    }

    /** bitmap_element_allocate */
    method Allocate() returns (element: Element)
      requires Valid()
      modifies this, free
      ensures Valid()
      ensures if old(free) == [] then fresh(element) && free == []
              else element == old(free)[0] && free == old(free)[1..]
      ensures element.place == InTransit && element.bits == ZEROS
    {
      if elements != null {
        element := elements;
        assert Linked(0);
        if element.next != null {
          // Use up the inner list first.
          assert Linked(1);
          elements := element.next;
          elements.prev := element.prev;
        } else {
          // The inner list was just a singleton.
          elements := element.prev;
        }
      } else {
        element := new Element;
      }
      element.place := InTransit;
      element.bits := ZEROS;
      free := if |free| > 0 then free[1..] else [];
      forall i | 0 <= i < |free| ensures Linked(i) {
        assert old(Linked(i + 1));
      }
    }

    /** bitmap_elem_to_freelist */
    method Release(elt: Element)
      requires Valid() && !elt.place.OnFreeList?
      modifies this, elt
      ensures Valid() && free == [elt] + old(free)
    {
      elt.next := null;
      elt.prev := elements;
      elements := elt;
      elt.place := OnFreeList(this, |free|, elt.prev);
      free := [elt] + free;
      forall i | 1 <= i < |free| ensures Linked(i) {
        assert old(Linked(i - 1));
      }
    }

    /** The last part of bitmap_elt_clear_from: a whole chain goes onto the free list in one operation. */
    method ReleaseChain(elt: Element, ghost es: seq<Element>)
      requires Valid()
      requires |es| > 0 && es[0] == elt
      requires forall i, j :: 0 <= i < j < |es| ==> es[i] != es[j]
      requires forall i :: 0 <= i < |es| ==> !es[i].place.OnFreeList?
      requires forall i :: 0 <= i < |es| ==> es[i].next == Nth(es, i + 1)
      modifies this, es
      ensures Valid() && free == es + old(free)
    {
      elt.prev := elements;
      forall i | 0 <= i < |es| { es[i].place := OnFreeList(this, |free| + |es| - 1 - i, elements); }
      elements := elt;
      free := es + free;
      forall i | 0 <= i < |es| ensures Linked(i) {
        assert es[i] == free[i];
      }
      forall i | |es| <= i < |free| ensures Linked(i) {
        assert old(Linked(i - |es|));
      }
    }
  }
}
