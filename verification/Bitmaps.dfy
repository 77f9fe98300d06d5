/** bitmap_head: the sorted doubly linked list of elements, with its moving `current` element. */
module Bitmaps {
  import opened Words
  import opened Blocks
  import opened Obstacks

  ghost function Both(es: seq<Element>, fs: seq<Element>): set<Element> {
    (set e | e in es) + (set e | e in fs)
  }

  lemma CutBoth(es: seq<Element>, k: nat, fs: seq<Element>)
    requires k <= |es|
    ensures Both(es[..k], es[k..] + fs) == Both(es, fs)
  {
    assert es == es[..k] + es[k..];
  }

  lemma FreeBoth(es: seq<Element>, k: nat, fs: seq<Element>)
    requires k < |es|
    ensures Both(es[..k] + es[k + 1..], [es[k]] + fs) == Both(es, fs)
  {
    assert es == es[..k] + [es[k]] + es[k + 1..];
  }

  lemma TakeBoth(es: seq<Element>, k: nat, e: Element, fs: seq<Element>, rest: seq<Element>)
    requires k <= |es| && (if fs == [] then rest == [] else fs == [e] + rest)
    ensures Both(es[..k] + [e] + es[k..], rest) == Both(es, fs) + {e}
  {
    assert es == es[..k] + es[k..];
  }

  lemma ObstacksApart(o1: Obstack, o2: Obstack)
    requires o1 != o2 && o1.Valid() && o2.Valid()
    ensures forall i, j :: 0 <= i < |o1.free| && 0 <= j < |o2.free| ==> o1.free[i] != o2.free[j]
  {}

  lemma FreeApart(o: Obstack, b: Bitmap)
    requires o.Valid() && b.Links()
    ensures forall i, j :: 0 <= i < |b.elems| && 0 <= j < |o.free| ==> b.elems[i] != o.free[j]
  {}

  // ---- the loops over the words of an element, from the last to the first ----

  /** The words from ix on are ors already, and changed says whether that changed one. */
  ghost predicate IorFrom(ix: nat, xs: seq<Word>, ys: seq<Word>, was: seq<Word>, now: seq<Word>, changed: bool)
    requires ix <= ELEMENT_WORDS == |xs| == |ys| == |was| == |now|
  {
    && (forall m :: 0 <= m < ix ==> now[m] == was[m])
    && (forall m :: ix <= m < ELEMENT_WORDS ==> now[m] == Or(xs[m], ys[m]))
    && (changed <==> exists m :: ix <= m < ELEMENT_WORDS && now[m] != was[m])
  }

  lemma IorStarts(xs: seq<Word>, ys: seq<Word>, was: seq<Word>)
    requires ELEMENT_WORDS == |xs| == |ys| == |was|
    ensures IorFrom(ELEMENT_WORDS, xs, ys, was, was, false)
  {}

  lemma IorSteps(ix: nat, xs: seq<Word>, ys: seq<Word>, was: seq<Word>, now: seq<Word>, changed: bool)
    requires 0 < ix <= ELEMENT_WORDS == |xs| == |ys| == |was| == |now| && IorFrom(ix, xs, ys, was, now, changed)
    ensures now[ix - 1] == was[ix - 1]
    ensures var r := Or(xs[ix - 1], ys[ix - 1]);
      if r == now[ix - 1] then IorFrom(ix - 1, xs, ys, was, now, changed)
      else IorFrom(ix - 1, xs, ys, was, now[ix - 1 := r], true)
  {
    hide Or;
  }

  lemma IorEnds(xs: seq<Word>, ys: seq<Word>, was: seq<Word>, now: seq<Word>, changed: bool)
    requires ELEMENT_WORDS == |xs| == |ys| == |was| == |now| && IorFrom(0, xs, ys, was, now, changed)
    ensures now == WordsOp(IorOp, xs, ys) && (changed <==> now != was)
  {
    hide Or;
    assert now == [now[0], now[1]];
  }

  /** The words from ix on are cleared already; cleared and ior are zero when nothing was cleared, or is left. */
  ghost predicate ClearedFrom(ix: nat, was: seq<Word>, ys: seq<Word>, now: seq<Word>, cleared: Word, ior: Word)
    requires ix <= ELEMENT_WORDS == |was| == |ys| == |now|
  {
    && (forall m :: 0 <= m < ix ==> now[m] == was[m])
    && (forall m :: ix <= m < ELEMENT_WORDS ==> now[m] == And(was[m], Not(ys[m])))
    && (ior == ZERO <==> forall m :: ix <= m < ELEMENT_WORDS ==> now[m] == ZERO)
    && (cleared == ZERO <==> forall m :: ix <= m < ELEMENT_WORDS ==> now[m] == was[m])
  }

  lemma ClearedStarts(was: seq<Word>, ys: seq<Word>)
    requires ELEMENT_WORDS == |was| == |ys|
    ensures ClearedFrom(ELEMENT_WORDS, was, ys, was, ZERO, ZERO)
  {}

  lemma ClearedSteps(ix: nat, was: seq<Word>, ys: seq<Word>, now: seq<Word>, cleared: Word, ior: Word)
    requires 0 < ix <= ELEMENT_WORDS == |was| == |ys| == |now| && ClearedFrom(ix, was, ys, now, cleared, ior)
    ensures
      var c := And(now[ix - 1], ys[ix - 1]);
      var r := Xor(now[ix - 1], c);
      ClearedFrom(ix - 1, was, ys, now[ix - 1 := r], Or(cleared, c), Or(ior, r))
  {
    hide And, Not, Xor, Or;
    var c := And(now[ix - 1], ys[ix - 1]);
    var r := Xor(now[ix - 1], c);
    var next := now[ix - 1 := r];
    assert now[ix - 1] == was[ix - 1] && next[ix - 1] == r;
    assert forall m :: ix <= m < ELEMENT_WORDS ==> next[m] == now[m];
    Clearing(now[ix - 1], ys[ix - 1]);
    ClearingChanges(now[ix - 1], ys[ix - 1]);
    OrZero(ior, r);
    OrZero(cleared, c);
  }

  lemma ClearedEnds(was: seq<Word>, ys: seq<Word>, now: seq<Word>, cleared: Word, ior: Word)
    requires ELEMENT_WORDS == |was| == |ys| == |now| && ClearedFrom(0, was, ys, now, cleared, ior)
    ensures now == WordsOp(AndComplOp, was, ys) && (ior == ZERO <==> now == ZEROS) && (cleared == ZERO <==> now == was)
  {
    hide And, Not, Xor, Or;
    assert now == [now[0], now[1]];
  }

  class Bitmap {
    var first: Element?
    var current: Element?
    var indx: nat
    const obstack: Obstack
    ghost var elems: seq<Element>  // the elements of the list, in order
    ghost var blocks: seq<Block>   // what they hold

    ghost predicate Node(i: nat)
      requires i < |elems|
      reads this`elems, elems`next, elems`prev
    {
      elems[i].next == Nth(elems, i + 1) && elems[i].prev == Nth(elems, i - 1)
    }

    /** The list is consistently linked and holds each element once. */
    ghost predicate Linked()
      reads this`first, this`elems, elems`next, elems`prev, elems`place
    {
      && first == Nth(elems, 0)
      && (forall i :: 0 <= i < |elems| ==> elems[i].place == InBitmap(this))
      && (forall i, j :: 0 <= i < j < |elems| ==> elems[i] != elems[j])
      && (forall i :: 0 <= i < |elems| ==> Node(i))
    }

    /** `blocks` is what the elements hold. */
    ghost predicate Holding()
      reads this`elems, this`blocks, elems`indx, elems`bits
    {
      && |blocks| == |elems|
      && (forall i :: 0 <= i < |elems| ==> blocks[i] == Block(elems[i].indx, elems[i].bits))
    }

    ghost predicate Links()
      reads this`first, this`elems, this`blocks, elems
    {
      Linked() && Holding()
    }

    /** `current` is in the list, or null when the list is empty. */
    ghost predicate HasCurrent()
      reads this`elems, this`current
    {
      if elems == [] then current == null else current != null && current in elems
    }

    ghost predicate CurrentOk()
      reads this`elems, this`current, this`indx, elems`indx
    {
      HasCurrent() && (current != null ==> indx == current.indx)
    }

    ghost predicate Valid()
      reads this, elems
    {
      Links() && Canonical(blocks) && CurrentOk()
    }

    lemma NodeAt(i: nat)
      requires Links() && i < |elems|
      ensures elems[i].next == Nth(elems, i + 1) && elems[i].prev == Nth(elems, i - 1)
      ensures |blocks| == |elems| && blocks[i] == Block(elems[i].indx, elems[i].bits)
    {
      assert Node(i);
    }

    lemma Ends()
      requires Links()
      ensures |blocks| == |elems| && first == Nth(elems, 0)
    {}

    lemma Distinct()
      requires Links()
      ensures forall i, j :: 0 <= i < j < |elems| ==> elems[i] != elems[j]
    {}

    /** The position of `current`. */
    ghost function CurrentAt(): (c: nat)
      requires HasCurrent() && elems != []
      reads this`elems, this`current
      ensures c < |elems| && elems[c] == current
    {
      var c :| 0 <= c < |elems| && elems[c] == current;
      c
    }

    /** An element is not both in the list and free. */
    lemma Apart()
      requires Links() && obstack.Valid()
      ensures forall i, j :: 0 <= i < |elems| && 0 <= j < |obstack.free| ==> elems[i] != obstack.free[j]
    {}

    /** The elements in the list and those free to be taken. */
    ghost function Elements(): set<Element>
      reads this`elems, obstack`free
    {
      Both(elems, obstack.free)
    }

    /** Another bitmap's elements are neither in this list nor free here. */
    lemma Separate(b: Bitmap)
      requires Links() && obstack.Valid() && b.Links() && b != this
      ensures forall i :: 0 <= i < |b.elems| ==> b.elems[i] !in Elements()
    {}

    /** No element is lost, and only newly made ones are added. */
    twostate predicate Conserves()
      reads this`elems, obstack`free
    {
      old(Elements()) <= Elements() && forall e :: e in Elements() ==> e in old(Elements()) || fresh(e)
    }

    constructor (o: Obstack)
      ensures Valid() && blocks == [] && elems == [] && obstack == o
    {
      first, current := null, null;
      obstack := o;
      elems, blocks := [], [];
    }

    /** Taking element k out of the list: its neighbours now point past it, all else is as before. */
    twostate lemma Unlinked(k: nat)
      requires old(Links()) && k < |old(elems)|
      requires elems == old(elems[..k] + elems[k + 1..]) && blocks == Without(old(blocks), k)
      requires first == if k == 0 then Nth(old(elems), 1) else old(first)
      requires forall i :: 0 <= i < |old(elems)| && i != k ==> 
          var e := old(elems[i]);
          e.place == old(e.place) && e.indx == old(e.indx) && e.bits == old(e.bits)
          && e.next == (if i + 1 == k then Nth(old(elems), k + 1) else old(e.next))
          && e.prev == (if i == k + 1 then Nth(old(elems), k - 1) else old(e.prev))
      ensures Links()
    {
      forall i | 0 <= i < |elems| ensures Node(i) {
        assert old(Node(if i < k then i else i + 1));
      }
    }

    /** The relinking done by bitmap_element_free. */
    method Unlink(elt: Element, next: Element?, prev: Element?, ghost k: nat)
      requires Links() && k < |elems| && elems[k] == elt
      requires next == Nth(elems, k + 1) && prev == Nth(elems, k - 1)
      modifies this`first, this`elems, this`blocks, elems`next, elems`prev
      ensures Links()
      ensures elems == old(elems[..k] + elems[k + 1..]) && blocks == Without(old(blocks), k)
      ensures elt.place == InBitmap(this) && elt !in elems
    {
      if prev != null {
        prev.next := next;
      }
      if next != null {
        next.prev := prev;
      }
      if first == elt {
        first := next;
      }
      elems := elems[..k] + elems[k + 1..];
      blocks := Without(blocks, k);
      Unlinked(k);
    }

    /** bitmap_element_free */
    method ElementFree(elt: Element, ghost k: nat)
      requires obstack.Valid() && Links() && CurrentOk()
      requires k < |elems| && elems[k] == elt
      modifies this, elems, obstack
      ensures obstack.Valid() && Links() && CurrentOk()
      ensures elems == old(elems[..k] + elems[k + 1..]) && blocks == Without(old(blocks), k)
      ensures Elements() == old(Elements())
    {
      hide Linked, Holding, Node, Obstack.Valid, Obstack.Linked, Both;
      Apart();
      NodeAt(k);
      var next := elt.next;
      var prev := elt.prev;
      ghost var c :| 0 <= c < |elems| && elems[c] == current;
      Unlink(elt, next, prev, k);
      // Since insertion is first tried before current, prefer the next element to the previous one.
      if current == elt {
        current := if next != null then next else prev;
        indx := if current != null then current.indx else 0;
        assert next != null ==> elems[k] == next;
        assert next == null && prev != null ==> elems[k - 1] == prev;
      } else {
        assert elems[if c < k then c else c - 1] == current;
      }
      obstack.Release(elt);
      FreeBoth(old(elems), k, old(obstack.free));
    }

    /** Putting a node in at position k: it and its neighbours are linked, all else is as before. */
    twostate lemma InsertedLinks(k: nat)
      requires old(Linked()) && k <= |old(elems)| && k < |elems|
      requires var node := elems[k];
        && node !in old(elems) && node.place == InBitmap(this)
        && elems == old(elems)[..k] + [node] + old(elems)[k..]
        && first == (if k == 0 then node else old(first))
        && node.next == Nth(old(elems), k) && node.prev == Nth(old(elems), k - 1)
      requires forall i :: 0 <= i < |old(elems)| ==>
          var e := old(elems[i]);
          e.place == old(e.place)
          && e.next == (if i + 1 == k then elems[k] else old(e.next))
          && e.prev == (if i == k then elems[k] else old(e.prev))
      ensures Linked()
    {
      forall i | 0 <= i < |elems| ensures Node(i) {
        if i != k { assert old(Node(if i < k then i else i - 1)); }
      }
    }

    twostate lemma InsertedBlocks(k: nat)
      requires old(Holding()) && k <= |old(elems)| && k < |elems|
      requires elems == old(elems)[..k] + [elems[k]] + old(elems)[k..]
      requires blocks == With(old(blocks), k, Block(elems[k].indx, elems[k].bits))
      requires forall i :: 0 <= i < |old(elems)| ==>
          var e := old(elems[i]);
          e.indx == old(e.indx) && e.bits == old(e.bits)
      ensures Holding()
    {}

    /** The first case of bitmap_element_link: the only element. */
    method LinkOnly(node: Element)
      requires Links() && elems == [] && node.place == InTransit
      modifies this`first, this`elems, this`blocks, node`next, node`prev, node`place
      ensures Links() && elems == [node] && blocks == [Block(node.indx, node.bits)]
    {
      node.next, node.prev := null, null;
      first := node;
      node.place := InBitmap(this);
      elems, blocks := [node], [Block(node.indx, node.bits)];
      assert Node(0);
    }

    /** The second case of bitmap_element_link: in front of ptr. */
    method LinkBefore(node: Element, ptr: Element, ghost k: nat)
      requires Links() && k < |elems| && ptr == elems[k]
      requires node !in elems && node.place == InTransit
      modifies this`first, this`elems, this`blocks, elems`next, elems`prev, node`next, node`prev, node`place
      ensures Links()
      ensures elems == old(elems)[..k] + [node] + old(elems)[k..]
      ensures blocks == With(old(blocks), k, Block(node.indx, node.bits))
    {
      assert Node(k);
      if ptr.prev != null {
        ptr.prev.next := node;
      } else {
        first := node;
      }
      node.prev := ptr.prev;
      node.next := ptr;
      ptr.prev := node;
      node.place := InBitmap(this);
      elems := elems[..k] + [node] + elems[k..];
      blocks := With(blocks, k, Block(node.indx, node.bits));
      InsertedLinks(k);
      InsertedBlocks(k);
    }

    /** The third case of bitmap_element_link: behind ptr. */
    method LinkBehind(node: Element, ptr: Element, ghost k: nat)
      requires Links() && 0 < k <= |elems| && ptr == elems[k - 1]
      requires node !in elems && node.place == InTransit
      modifies this`first, this`elems, this`blocks, elems`next, elems`prev, node`next, node`prev, node`place
      ensures Links()
      ensures elems == old(elems)[..k] + [node] + old(elems)[k..]
      ensures blocks == With(old(blocks), k, Block(node.indx, node.bits))
    {
      assert Node(k - 1);
      if ptr.next != null {
        ptr.next.prev := node;
      }
      node.next := ptr.next;
      node.prev := ptr;
      ptr.next := node;
      node.place := InBitmap(this);
      elems := elems[..k] + [node] + elems[k..];
      blocks := With(blocks, k, Block(node.indx, node.bits));
      InsertedLinks(k);
      InsertedBlocks(k);
    }

    /** The first case of bitmap_elt_insert_after: at the start. */
    method LinkFirst(node: Element)
      requires Links() && node !in elems && node.place == InTransit
      modifies this`first, this`elems, this`blocks, elems`prev, node`next, node`prev, node`place
      ensures Links() && elems == [node] + old(elems)
      ensures blocks == With(old(blocks), 0, Block(node.indx, node.bits))
    {
      node.next := first;
      if node.next != null {
        node.next.prev := node;
      }
      first := node;
      node.prev := null;
      node.place := InBitmap(this);
      elems := elems[..0] + [node] + elems[0..];
      blocks := With(blocks, 0, Block(node.indx, node.bits));
      InsertedLinks(0);
      InsertedBlocks(0);
    }

    /** The linking done by bitmap_elt_insert_after. */
    method LinkAfter(node: Element, elt: Element?, ghost k: nat)
      requires Links() && HasCurrent()
      requires k <= |elems| && elt == Nth(elems, k - 1)
      requires node !in elems && node.place == InTransit
      modifies this, elems`next, elems`prev, node`next, node`prev, node`place
      ensures Links() && HasCurrent()
      ensures elems == old(elems)[..k] + [node] + old(elems)[k..]
      ensures blocks == With(old(blocks), k, Block(node.indx, node.bits))
      ensures if old(current) == null then current == node && indx == node.indx
              else current == old(current) && indx == old(indx)
    {
      hide Linked, Holding, Node, With;
      if elt == null {
        if current == null {
          current := node;
          indx := node.indx;
        }
        LinkFirst(node);
      } else {
        assert current != null;  // the source's gcc_assert
        LinkBehind(node, elt, k);
      }
    }

    /** The special case of linking in bitmap_copy: node goes to the end, behind tail. */
    method Append(node: Element, tail: Element?)
      requires Links() && HasCurrent() && tail == Nth(elems, |elems| - 1)
      requires node !in elems && node.place == InTransit
      modifies this, elems`next, node`next, node`prev, node`place
      ensures Links() && HasCurrent()
      ensures elems == old(elems) + [node] && blocks == old(blocks) + [Block(node.indx, node.bits)]
      ensures if tail == null then current == node && indx == node.indx
              else current == old(current) && indx == old(indx)
    {
      Ends();
      ghost var k := |elems|;
      if tail == null {
        first, current := node, node;
        indx := node.indx;
        node.next, node.prev := null, null;
      } else {
        assert Node(k - 1);
        node.prev := tail;
        node.next := null;
        tail.next := node;
      }
      node.place := InBitmap(this);
      WithEnd(blocks, Block(node.indx, node.bits));
      assert elems + [node] == elems[..k] + [node] + elems[k..];
      elems := elems + [node];
      blocks := blocks + [Block(node.indx, node.bits)];
      InsertedLinks(k);
      InsertedBlocks(k);
    }

    /** bitmap_elt_insert_after */
    method InsertAfter(elt: Element?, idx: nat, ghost k: nat) returns (node: Element)
      requires obstack.Valid() && Links() && HasCurrent()
      requires k <= |elems| && elt == Nth(elems, k - 1)
      modifies this, elems`next, elems`prev, obstack, obstack.free
      ensures obstack.Valid() && Links() && HasCurrent()
      ensures elems == old(elems)[..k] + [node] + old(elems)[k..]
      ensures blocks == With(old(blocks), k, Block(idx, ZEROS)) && node.indx == idx
      ensures if old(current) == null then current == node && indx == node.indx
              else current == old(current) && indx == old(indx)
      ensures Elements() == old(Elements()) + {node} && Conserves()
    {
      hide Linked, Holding, Node, Obstack.Valid, Obstack.Linked;
      Apart();
      node := obstack.Allocate();
      node.indx := idx;
      LinkAfter(node, elt, k);
      TakeBoth(old(elems), k, node, old(obstack.free), obstack.free);
    }

    /** Cutting the list before element k leaves a list and a chain. */
    twostate lemma Truncated(k: nat)
      requires old(Links()) && k <= |old(elems)|
      requires elems == old(elems[..k]) && blocks == old(blocks[..k])
      requires first == if k == 0 then null else old(first)
      requires forall i :: 0 <= i < |old(elems)| ==>
          var e := old(elems[i]);
          e.place == old(e.place) && e.indx == old(e.indx) && e.bits == old(e.bits) && e.prev == old(e.prev)
          && e.next == (if i + 1 == k then null else old(e.next))
      ensures Links() && Chain(old(elems[k..]))
    {
      forall i | 0 <= i < |elems| ensures Node(i) {
        assert old(Node(i));
      }
      ghost var es := old(elems[k..]);
      forall i | 0 <= i < |es| ensures es[i].next == Nth(es, i + 1) {
        assert old(Node(k + i));
      }
    }

    /** What ReleaseChain asks of the elements it is given. */
    ghost predicate Chain(es: seq<Element>)
      reads es
    {
      && (forall i, j :: 0 <= i < j < |es| ==> es[i] != es[j])
      && (forall i :: 0 <= i < |es| ==> es[i].place == InBitmap(this))
      && (forall i :: 0 <= i < |es| ==> es[i].next == Nth(es, i + 1))
    }

    /** The cutting done by bitmap_elt_clear_from. Where `current` ends up depends on a comparison of indices. */
    method Cut(elt: Element, ghost k: nat)
      requires Links() && HasCurrent()
      requires k < |elems| && elt == elems[k]
      modifies this, elems`next
      ensures Links() && Chain(old(elems[k..]))
      ensures elems == old(elems[..k]) && blocks == old(blocks[..k])
      ensures if k == 0 then current == null
              else if old(current.indx) > old(blocks[k - 1].indx) then current == elems[k - 1] && indx == current.indx
              else current == old(current) && indx == old(indx)
      ensures current != null ==> current.indx == old(current.indx) || current == elems[k - 1]
    {
      assert Node(k);
      var prev := elt.prev;
      if prev != null {
        prev.next := null;
        if current.indx > prev.indx {
          current := prev;
          indx := prev.indx;
        }
      } else {
        first := null;
        current := null;
        indx := 0;
      }
      elems := elems[..k];
      blocks := blocks[..k];
      Truncated(k);
    }

    /** bitmap_elt_clear_from */
    method ClearFrom(elt: Element?, ghost k: nat)
      requires obstack.Valid() && Links() && HasCurrent()
      requires k <= |elems| && elt == Nth(elems, k)
      modifies this, elems, obstack
      ensures obstack.Valid() && Links()
      ensures elems == old(elems[..k]) && blocks == old(blocks[..k])
      ensures Elements() == old(Elements())
      ensures if k == old(|elems|) then current == old(current) && indx == old(indx)
              else if k == 0 then current == null
              else if old(current.indx) > old(blocks[k - 1].indx) then current == elems[k - 1] && indx == current.indx
              else current == old(current) && indx == old(indx)
    {
      hide Both, Node;
      if elt == null { return; }
      Distinct();
      Cut(elt, k);
      assert forall i: nat, j: nat :: i < |elems| && k <= j < old(|elems|) ==> elems[i] != old(elems)[j];
      obstack.ReleaseChain(elt, old(elems[k..]));
      CutBoth(old(elems), k, old(obstack.free));
    }

    /** bitmap_elt_clear_from on a list whose indices increase from before element k to after it. */
    method ClearTail(elt: Element?, ghost k: nat)
      requires obstack.Valid() && Links() && CurrentOk() && |blocks| == |elems|
      requires k <= |elems| && elt == Nth(elems, k)
      requires forall m, n :: 0 <= m < k <= n < |blocks| ==> blocks[m].indx < blocks[n].indx
      modifies this, elems, obstack
      ensures obstack.Valid() && Links() && CurrentOk()
      ensures elems == old(elems[..k]) && blocks == old(blocks[..k])
      ensures Elements() == old(Elements())
    {
      hide Linked, Holding, Node, Obstack.Valid, Obstack.Linked, Both;
      ghost var at := 0;
      if elems != [] {
        at := CurrentAt();
        NodeAt(at);
      }
      ClearFrom(elt, k);
      Ends();
      if k > 0 { NodeAt(k - 1); }
      if at < k { NodeAt(at); }
    }

    /** elt->bits = words */
    method WriteBits(elt: Element, ghost k: nat, words: seq<Word>)
      requires Links() && k < |elems| && elems[k] == elt
      modifies this`blocks, elt`bits
      ensures Links() && elt.bits == words
      ensures blocks == old(blocks)[k := Block(elt.indx, words)]
    {
      elt.bits := words;
      blocks := blocks[k := Block(elt.indx, words)];
    }

    /** elt->indx = idx */
    method WriteIndex(elt: Element, ghost k: nat, idx: nat)
      requires Links() && k < |elems| && elems[k] == elt
      modifies this`blocks, elt`indx
      ensures Links() && elt.indx == idx
      ensures blocks == old(blocks)[k := Block(idx, elt.bits)]
    {
      elt.indx := idx;
      blocks := blocks[k := Block(idx, elt.bits)];
    }

    /** The loop `for (ix = BITMAP_ELEMENT_WORDS; ix--;)` that stores op of the words of x and y into elt
        and ors the results together. */
    method StoreOp(op: BoolOp, elt: Element, ghost k: nat, x: Element, y: Element) returns (ior: Word)
      requires Links() && k < |elems| && elems[k] == elt
      requires |x.bits| == |y.bits| == |elt.bits| == ELEMENT_WORDS && y != elt
      modifies this`blocks, elt`bits
      ensures Links()
      ensures elt.bits == WordsOp(op, old(x.bits), old(y.bits))
      ensures blocks == old(blocks)[k := Block(elt.indx, elt.bits)]
      ensures ior == ZERO <==> elt.bits == ZEROS
    {
      hide Linked, Node, Holding, WordOp, Or;
      NodeAt(k);
      ghost var was := elt.bits;
      ghost var xs := x.bits;
      ghost var ys := y.bits;
      ior := ZERO;
      var ix: nat := ELEMENT_WORDS;
      while ix > 0
        invariant ix <= ELEMENT_WORDS && |elt.bits| == ELEMENT_WORDS
        invariant Links() && blocks == old(blocks)[k := Block(elt.indx, elt.bits)]
        invariant forall m :: 0 <= m < ix ==> elt.bits[m] == was[m]
        invariant forall m :: ix <= m < ELEMENT_WORDS ==> elt.bits[m] == WordOp(op, xs[m], ys[m])
        invariant ior == ZERO <==> forall m :: ix <= m < ELEMENT_WORDS ==> elt.bits[m] == ZERO
      {
        ix := ix - 1;
        var r := WordOp(op, x.bits[ix], y.bits[ix]);
        OrZero(ior, r);
        WriteBits(elt, k, elt.bits[ix := r]);
        ior := Or(ior, r);
      }
      assert elt.bits == [elt.bits[0], elt.bits[1]];
    }

    /** The loop that stores x | y word by word where it differs from what elt holds. */
    method StoreIor(elt: Element, ghost k: nat, x: Element, y: Element) returns (changed: bool)
      requires Links() && k < |elems| && elems[k] == elt
      requires |x.bits| == |y.bits| == |elt.bits| == ELEMENT_WORDS && y != elt
      modifies this`blocks, elt`bits
      ensures Links()
      ensures elt.bits == WordsOp(IorOp, old(x.bits), old(y.bits))
      ensures blocks == old(blocks)[k := Block(elt.indx, elt.bits)]
      ensures changed <==> elt.bits != old(elt.bits)
    {
      hide Links, Linked, Node, Holding, Or, IorFrom, WordsOp;
      NodeAt(k);
      ghost var was := elt.bits;
      ghost var xs := x.bits;
      ghost var ys := y.bits;
      changed := false;
      var ix: nat := ELEMENT_WORDS;
      IorStarts(xs, ys, was);
      while ix > 0
        invariant ix <= ELEMENT_WORDS && |elt.bits| == ELEMENT_WORDS
        invariant Links() && blocks == old(blocks)[k := Block(elt.indx, elt.bits)]
        invariant IorFrom(ix, xs, ys, was, elt.bits, changed) && (x == elt || x.bits == xs)
      {
        IorSteps(ix, xs, ys, was, elt.bits, changed);
        ix := ix - 1;
        assert x == elt ==> x.bits[ix] == xs[ix];
        var r := Or(x.bits[ix], y.bits[ix]);
        if r != elt.bits[ix] {
          WriteBits(elt, k, elt.bits[ix := r]);
          changed := true;
        }
      }
      IorEnds(xs, ys, was, elt.bits, changed);
    }

    /** The loop that copies the words of x where they differ from what elt holds. */
    method StoreCopy(elt: Element, ghost k: nat, x: Element) returns (changed: bool)
      requires Links() && k < |elems| && elems[k] == elt
      requires |x.bits| == |elt.bits| == ELEMENT_WORDS && x != elt
      modifies this`blocks, elt`bits
      ensures Links() && elt.bits == x.bits
      ensures blocks == old(blocks)[k := Block(elt.indx, elt.bits)]
      ensures changed <==> elt.bits != old(elt.bits)
    {
      hide Linked, Node, Holding;
      NodeAt(k);
      ghost var was := elt.bits;
      ghost var xs := x.bits;
      changed := false;
      var ix: nat := ELEMENT_WORDS;
      while ix > 0
        invariant ix <= ELEMENT_WORDS && |elt.bits| == ELEMENT_WORDS
        invariant Links() && blocks == old(blocks)[k := Block(elt.indx, elt.bits)]
        invariant forall m :: 0 <= m < ix ==> elt.bits[m] == was[m]
        invariant forall m :: ix <= m < ELEMENT_WORDS ==> elt.bits[m] == xs[m]
        invariant changed <==> exists m :: ix <= m < ELEMENT_WORDS && elt.bits[m] != was[m]
      {
        ix := ix - 1;
        if x.bits[ix] != elt.bits[ix] {
          WriteBits(elt, k, elt.bits[ix := x.bits[ix]]);
          changed := true;
        }
      }
    }

    /** The loop of bitmap_and_compl_into: clears in elt the bits of y, and says which there were. */
    method StoreClearing(elt: Element, ghost k: nat, y: Element) returns (cleared: Word, ior: Word)
      requires Links() && k < |elems| && elems[k] == elt
      requires |y.bits| == |elt.bits| == ELEMENT_WORDS && y != elt
      modifies this`blocks, elt`bits
      ensures Links()
      ensures elt.bits == WordsOp(AndComplOp, old(elt.bits), y.bits)
      ensures blocks == old(blocks)[k := Block(elt.indx, elt.bits)]
      ensures ior == ZERO <==> elt.bits == ZEROS
      ensures cleared == ZERO <==> elt.bits == old(elt.bits)
    {
      hide Links, Linked, Node, Holding, And, Not, Xor, Or, ClearedFrom, WordsOp;
      NodeAt(k);
      ghost var was := elt.bits;
      ghost var ys := y.bits;
      cleared, ior := ZERO, ZERO;
      var ix: nat := ELEMENT_WORDS;
      ClearedStarts(was, ys);
      while ix > 0
        invariant ix <= ELEMENT_WORDS && |elt.bits| == ELEMENT_WORDS
        invariant Links() && blocks == old(blocks)[k := Block(elt.indx, elt.bits)]
        invariant ClearedFrom(ix, was, ys, elt.bits, cleared, ior)
      {
        ClearedSteps(ix, was, ys, elt.bits, cleared, ior);
        ix := ix - 1;
        var c := And(elt.bits[ix], y.bits[ix]);
        var r := Xor(elt.bits[ix], c);
        WriteBits(elt, k, elt.bits[ix := r]);
        cleared := Or(cleared, c);
        ior := Or(ior, r);
      }
      ClearedEnds(was, ys, elt.bits, cleared, ior);
    }

    /** The loop of bitmap_compl_and_into: ~elt & y. */
    method StoreComplAnd(elt: Element, ghost k: nat, y: Element) returns (ior: Word)
      requires Links() && k < |elems| && elems[k] == elt
      requires |y.bits| == |elt.bits| == ELEMENT_WORDS && y != elt
      modifies this`blocks, elt`bits
      ensures Links()
      ensures elt.bits == WordsOp(ComplAndOp, old(elt.bits), y.bits)
      ensures blocks == old(blocks)[k := Block(elt.indx, elt.bits)]
      ensures ior == ZERO <==> elt.bits == ZEROS
    {
      hide Linked, Node, Holding, And, Not, Xor, Or;
      NodeAt(k);
      ghost var was := elt.bits;
      ghost var ys := y.bits;
      ior := ZERO;
      var ix: nat := ELEMENT_WORDS;
      while ix > 0
        invariant ix <= ELEMENT_WORDS && |elt.bits| == ELEMENT_WORDS
        invariant Links() && blocks == old(blocks)[k := Block(elt.indx, elt.bits)]
        invariant forall m :: 0 <= m < ix ==> elt.bits[m] == was[m]
        invariant forall m :: ix <= m < ELEMENT_WORDS ==> elt.bits[m] == And(Not(was[m]), ys[m])
        invariant ior == ZERO <==> forall m :: ix <= m < ELEMENT_WORDS ==> elt.bits[m] == ZERO
      {
        ix := ix - 1;
        var c := And(elt.bits[ix], y.bits[ix]);
        var r := Xor(y.bits[ix], c);
        Clearing(elt.bits[ix], y.bits[ix]);
        OrZero(ior, r);
        WriteBits(elt, k, elt.bits[ix := r]);
        ior := Or(ior, r);
      }
      assert elt.bits == [elt.bits[0], elt.bits[1]];
    }
  }
}
