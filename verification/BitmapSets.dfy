/** The set operations of bitmap.h as their callers see them: what set each bitmap denotes afterwards. */
module BitmapSets {
  import opened Words
  import opened Blocks
  import opened Obstacks
  import opened Bitmaps
  import opened BitmapBits
  import opened BitmapOps
  import opened BitmapInto

  /** Whether `current` of dst is left on an element of dst by a three-operand operation.
      It is not only if it sits beyond the result and its index is not beyond the last index of the result. */
  ghost predicate CurrentKept(dst: Bitmap, op: BoolOp, A: seq<Block>, B: seq<Block>)
    requires dst.Valid() && Canonical(A) && Canonical(B)
    reads dst, dst.elems
  {
    dst.elems == [] || CurrentSurvives(dst.blocks, dst.CurrentAt(), RawMerge(op, A, 0, B, 0))
  }

  /** In particular it is kept if dst is empty or its `current` is its first element. */
  lemma KeptAtFirst(dst: Bitmap, op: BoolOp, A: seq<Block>, B: seq<Block>)
    requires dst.Valid() && Canonical(A) && Canonical(B)
    requires dst.current == dst.first
    ensures CurrentKept(dst, op, A, B)
  {
    if dst.elems != [] { dst.Distinct(); }
  }

  /** bitmap_and: dst = a & b */
  method BitmapAnd(dst: Bitmap, a: Bitmap, b: Bitmap)
    requires dst != a && dst != b
    requires dst.Valid() && a.Valid() && b.Valid() && dst.obstack.Valid()
    modifies dst, dst.obstack, dst.Elements()
    ensures dst.obstack.Valid() && dst.Conserves()
    ensures dst.Links() && Canonical(dst.blocks)
    ensures Members(dst.blocks) == Members(old(a.blocks)) * Members(old(b.blocks))
    ensures a.Valid() && a.blocks == old(a.blocks) && b.Valid() && b.blocks == old(b.blocks)
    ensures dst.CurrentOk() <==> a == b || old(CurrentKept(dst, AndOp, a.blocks, b.blocks))
    ensures old(dst.current == dst.first) ==> dst.Valid()
  {
    hide Bitmap.Linked, Bitmap.Holding, Bitmap.Node, Bitmap.Links, Obstack.Valid, Obstack.Linked,
      Sized, Sorted, NonZero, Members, Merge, RawMerge, CurrentSurvives;
    ghost var A, B := a.blocks, b.blocks;
    dst.Separate(a);
    dst.Separate(b);
    if dst.current == dst.first { KeptAtFirst(dst, AndOp, A, B); }
    if a == b {
      CopyTo(dst, a);
    } else {
      AndDistinct(dst, a, b);
      MergeMeaning(AndOp, A, B);
    }
  }

  /** bitmap_and_compl: dst = a & ~b */
  method BitmapAndCompl(dst: Bitmap, a: Bitmap, b: Bitmap)
    requires dst != a && dst != b
    requires dst.Valid() && a.Valid() && b.Valid() && dst.obstack.Valid()
    modifies dst, dst.obstack, dst.Elements()
    ensures dst.obstack.Valid() && dst.Conserves()
    ensures dst.Links() && Canonical(dst.blocks)
    ensures Members(dst.blocks) == Members(old(a.blocks)) - Members(old(b.blocks))
    ensures a.Valid() && a.blocks == old(a.blocks) && b.Valid() && b.blocks == old(b.blocks)
    ensures dst.CurrentOk() <==> a == b || old(CurrentKept(dst, AndComplOp, a.blocks, b.blocks))
    ensures old(dst.current == dst.first) ==> dst.Valid()
  {
    hide Bitmap.Linked, Bitmap.Holding, Bitmap.Node, Bitmap.Links, Obstack.Valid, Obstack.Linked,
      Sized, Sorted, NonZero, Members, Merge, RawMerge, CurrentSurvives;
    ghost var A, B := a.blocks, b.blocks;
    dst.Separate(a);
    dst.Separate(b);
    if dst.current == dst.first { KeptAtFirst(dst, AndComplOp, A, B); }
    if a == b {
      Clear(dst);
      NoMembers();
    } else {
      AndComplDistinct(dst, a, b);
      MergeMeaning(AndComplOp, A, B);
    }
  }

  /** bitmap_xor: dst = a ^ b */
  method BitmapXor(dst: Bitmap, a: Bitmap, b: Bitmap)
    requires dst != a && dst != b
    requires dst.Valid() && a.Valid() && b.Valid() && dst.obstack.Valid()
    modifies dst, dst.obstack, dst.Elements()
    ensures dst.obstack.Valid() && dst.Conserves()
    ensures dst.Links() && Canonical(dst.blocks)
    ensures Members(dst.blocks) == (Members(old(a.blocks)) - Members(old(b.blocks))) + (Members(old(b.blocks)) - Members(old(a.blocks)))
    ensures a.Valid() && a.blocks == old(a.blocks) && b.Valid() && b.blocks == old(b.blocks)
    ensures dst.CurrentOk() <==> a == b || old(CurrentKept(dst, XorOp, a.blocks, b.blocks))
    ensures old(dst.current == dst.first) ==> dst.Valid()
  {
    hide Bitmap.Linked, Bitmap.Holding, Bitmap.Node, Bitmap.Links, Obstack.Valid, Obstack.Linked,
      Sized, Sorted, NonZero, Members, Merge, RawMerge, CurrentSurvives;
    ghost var A, B := a.blocks, b.blocks;
    dst.Separate(a);
    dst.Separate(b);
    if dst.current == dst.first { KeptAtFirst(dst, XorOp, A, B); }
    if a == b {
      Clear(dst);
      NoMembers();
    } else {
      XorDistinct(dst, a, b);
      MergeMeaning(XorOp, A, B);
    }
  }

  /** bitmap_ior: dst = a | b; returns true iff dst changes */
  method BitmapIor(dst: Bitmap, a: Bitmap, b: Bitmap) returns (changed: bool)
    requires dst != a && dst != b
    requires dst.Valid() && a.Valid() && b.Valid() && dst.obstack.Valid()
    modifies dst, dst.obstack, dst.Elements()
    ensures dst.obstack.Valid() && dst.Conserves()
    ensures dst.Links() && Canonical(dst.blocks)
    ensures Members(dst.blocks) == Members(old(a.blocks)) + Members(old(b.blocks))
    ensures a.Valid() && a.blocks == old(a.blocks) && b.Valid() && b.blocks == old(b.blocks)
    ensures dst.CurrentOk() <==> old(CurrentKept(dst, IorOp, a.blocks, b.blocks))
    ensures old(dst.current == dst.first) ==> dst.Valid()
    ensures changed <==> Members(dst.blocks) != Members(old(dst.blocks))
  {
    hide Bitmap.Linked, Bitmap.Holding, Bitmap.Node, Bitmap.Links, Obstack.Valid, Obstack.Linked,
      Sized, Sorted, NonZero, Members, Merge, RawMerge, CurrentSurvives;
    ghost var A, B := a.blocks, b.blocks;
    dst.Separate(a);
    dst.Separate(b);
    if dst.current == dst.first { KeptAtFirst(dst, IorOp, A, B); }
    changed := Ior(dst, a, b);
    MergeMeaning(IorOp, A, B);
    if Members(dst.blocks) == Members(old(dst.blocks)) { CanonicalUnique(dst.blocks, old(dst.blocks)); }
  }

  /** bitmap_and_into: a &= b */
  method BitmapAndInto(a: Bitmap, b: Bitmap)
    requires a.Valid() && b.Valid() && a.obstack.Valid()
    modifies a, a.obstack, a.Elements()
    ensures a.Valid() && a.obstack.Valid() && a.Conserves()
    ensures Members(a.blocks) == Members(old(a.blocks)) * Members(old(b.blocks))
    ensures b != a ==> b.Valid() && b.blocks == old(b.blocks)
  {
    hide Bitmap.Linked, Bitmap.Holding, Bitmap.Node, Bitmap.Links, Obstack.Valid, Obstack.Linked,
      Sized, Sorted, NonZero, Members, Merge, RawMerge, CurrentSurvives;
    ghost var A, B := a.blocks, b.blocks;
    if a == b {
      return;
    } else {
      a.Separate(b);
      AndInto(a, b);
      MergeMeaning(AndOp, A, B);
    }
  }

  /** bitmap_and_compl_into: a &= ~b; returns true iff a changes */
  method BitmapAndComplInto(a: Bitmap, b: Bitmap) returns (changed: bool)
    requires a.Valid() && b.Valid() && a.obstack.Valid()
    modifies a, a.obstack, a.Elements()
    ensures a.Valid() && a.obstack.Valid() && a.Conserves()
    ensures Members(a.blocks) == Members(old(a.blocks)) - Members(old(b.blocks))
    ensures b != a ==> b.Valid() && b.blocks == old(b.blocks)
    ensures changed <==> Members(a.blocks) != Members(old(a.blocks))
  {
    hide Bitmap.Linked, Bitmap.Holding, Bitmap.Node, Bitmap.Links, Obstack.Valid, Obstack.Linked,
      Sized, Sorted, NonZero, Members, Merge, RawMerge, CurrentSurvives;
    ghost var A, B := a.blocks, b.blocks;
    if a == b {
      NoMembers();
      a.Ends();
      if a.first == null {
        changed := false;
      } else {
        Clear(a);
        changed := true;
        if Members(a.blocks) == Members(A) { CanonicalUnique(a.blocks, A); }
      }
    } else {
      a.Separate(b);
      changed := AndComplInto(a, b);
      MergeMeaning(AndComplOp, A, B);
      if Members(a.blocks) == Members(A) { CanonicalUnique(a.blocks, A); }
    }
  }

  /** bitmap_ior_into: a |= b; returns true iff a changes */
  method BitmapIorInto(a: Bitmap, b: Bitmap) returns (changed: bool)
    requires a.Valid() && b.Valid() && a.obstack.Valid()
    modifies a, a.obstack, a.Elements()
    ensures a.Valid() && a.obstack.Valid() && a.Conserves()
    ensures Members(a.blocks) == Members(old(a.blocks)) + Members(old(b.blocks))
    ensures b != a ==> b.Valid() && b.blocks == old(b.blocks)
    ensures changed <==> Members(a.blocks) != Members(old(a.blocks))
  {
    hide Bitmap.Linked, Bitmap.Holding, Bitmap.Node, Bitmap.Links, Obstack.Valid, Obstack.Linked,
      Sized, Sorted, NonZero, Members, Merge, RawMerge, CurrentSurvives;
    ghost var A, B := a.blocks, b.blocks;
    if a == b {
      changed := false;
    } else {
      a.Separate(b);
      changed := IorInto(a, b);
      MergeMeaning(IorOp, A, B);
      if Members(a.blocks) == Members(A) { CanonicalUnique(a.blocks, A); }
    }
  }

  /** bitmap_xor_into: a ^= b */
  method BitmapXorInto(a: Bitmap, b: Bitmap)
    requires a.Valid() && b.Valid() && a.obstack.Valid()
    modifies a, a.obstack, a.Elements()
    ensures a.Valid() && a.obstack.Valid() && a.Conserves()
    ensures Members(a.blocks) == (Members(old(a.blocks)) - Members(old(b.blocks))) + (Members(old(b.blocks)) - Members(old(a.blocks)))
    ensures b != a ==> b.Valid() && b.blocks == old(b.blocks)
  {
    hide Bitmap.Linked, Bitmap.Holding, Bitmap.Node, Bitmap.Links, Obstack.Valid, Obstack.Linked,
      Sized, Sorted, NonZero, Members, Merge, RawMerge, CurrentSurvives;
    ghost var A, B := a.blocks, b.blocks;
    if a == b {
      Clear(a);
      NoMembers();
    } else {
      a.Separate(b);
      XorInto(a, b);
      MergeMeaning(XorOp, A, B);
    }
  }

  /** bitmap_compl_and_into: a = ~a & b */
  method BitmapComplAndInto(a: Bitmap, b: Bitmap)
    requires a != b && a.Valid() && b.Valid() && a.obstack.Valid()
    modifies a, a.obstack, a.Elements()
    ensures a.Valid() && a.obstack.Valid() && a.Conserves()
    ensures Members(a.blocks) == Members(old(b.blocks)) - Members(old(a.blocks))
    ensures b.Valid() && b.blocks == old(b.blocks)
  {
    hide Bitmap.Linked, Bitmap.Holding, Bitmap.Node, Bitmap.Links, Obstack.Valid, Obstack.Linked,
      Sized, Sorted, NonZero, Members, Merge, RawMerge, CurrentSurvives;
    ghost var A, B := a.blocks, b.blocks;
    a.Ends();
    b.Ends();
    a.Separate(b);
    NoMembers();
    if a.first == null {
      CopyTo(a, b);
    } else if b.first == null {
      Clear(a);
    } else {
      ComplAndInto(a, b);
      MergeMeaning(ComplAndOp, A, B);
    }
  }

  /** The blocks of the difference. */
  ghost function DifferenceOf(A: seq<Block>, B: seq<Block>): (r: seq<Block>)
    requires Canonical(A) && Canonical(B)
    ensures Canonical(r) && Members(r) == Members(A) - Members(B)
  {
    MergeMeaning(AndComplOp, A, B);
    Merge(AndComplOp, A, B)
  }

  /** The temporary of the two operations below: from1 & ~from2, on the default obstack. */
  method Difference(from1: Bitmap, from2: Bitmap, o: Obstack) returns (tmp: Bitmap)
    requires from1.Valid() && from2.Valid() && o.Valid()
    modifies o, o.free
    ensures fresh(tmp) && tmp.Valid() && tmp.obstack == o && o.Valid()
    ensures tmp.blocks == DifferenceOf(old(from1.blocks), old(from2.blocks))
    ensures forall e :: e in old(o.free) ==> e in tmp.Elements()
    ensures forall e :: e in tmp.Elements() ==> e in old(o.free) || fresh(e)
    ensures forall i :: 0 <= i < |tmp.elems| ==> tmp.elems[i] in old(o.free) || fresh(tmp.elems[i])
  {
    hide Bitmap.Linked, Bitmap.Holding, Bitmap.Node, Bitmap.Links, Obstack.Valid, Obstack.Linked,
      Sized, Sorted, NonZero, Members, Merge, RawMerge, CurrentSurvives, DifferenceOf;
    ghost var A, B := from1.blocks, from2.blocks;
    tmp := new Bitmap(o);
    FreeApart(o, from1);
    FreeApart(o, from2);
    tmp.Ends();
    BitmapAndCompl(tmp, from1, from2);
    CanonicalUnique(tmp.blocks, DifferenceOf(A, B));
    forall i | 0 <= i < |tmp.elems| ensures tmp.elems[i] in old(o.free) || fresh(tmp.elems[i]) {
      assert tmp.elems[i] in tmp.Elements();
    }
  }

  /** A bitmap that holds no free element stays as it is when a difference is taken. */
  lemma Aside(b: Bitmap, dst: Bitmap, o: Obstack)
    requires b.Valid() && dst.Valid() && o.Valid() && dst.obstack.Valid()
    ensures forall i :: 0 <= i < |b.elems| ==> b.elems[i] !in o.free
    ensures b != dst ==> forall i :: 0 <= i < |b.elems| ==> b.elems[i] !in dst.Elements()
  {
    hide Bitmap.Linked, Bitmap.Holding, Bitmap.Node, Bitmap.Links, Obstack.Valid, Obstack.Linked, Canonical;
    FreeApart(o, b);
    if b != dst { dst.Separate(b); }
  }

  /** No element of the default obstack is lost, and only newly made ones are added. */
  twostate predicate FreeConserved(o: Obstack)
    reads o`free
  {
    && (forall e :: e in old(o.free) ==> e in o.free)
    && (forall e :: e in o.free ==> e in old(o.free) || fresh(e))
  }

  /** The final bitmap_clear of the temporary leaves the result alone. */
  method ClearTemp(ghost dst: Bitmap, tmp: Bitmap)
    requires dst != tmp && tmp.Valid() && tmp.obstack.Valid() && dst.Links() && dst.obstack.Valid()
    modifies tmp, tmp.obstack, tmp.elems
    ensures tmp.obstack.Valid() && dst.obstack.Valid()
    ensures dst.Links() && dst.blocks == old(dst.blocks) && (dst.CurrentOk() <==> old(dst.CurrentOk()))
    ensures forall e :: e in old(tmp.Elements()) ==> e in tmp.obstack.free
    ensures forall e :: e in tmp.obstack.free ==> e in old(tmp.Elements()) || fresh(e)
  {
    hide Bitmap.Linked, Bitmap.Holding, Bitmap.Node, Bitmap.Links, Obstack.Valid, Obstack.Linked,
      Sized, Sorted, NonZero, Members, Merge, RawMerge, CurrentSurvives;
    dst.Separate(tmp);
    tmp.Separate(dst);
    if dst.obstack != tmp.obstack { FreeApart(dst.obstack, tmp); }
    Clear(tmp);
    tmp.Ends();
  }

  /** dst = a | tmp, after which the temporary is cleared. */
  method IorTemp(dst: Bitmap, a: Bitmap, tmp: Bitmap) returns (changed: bool)
    requires dst != a && dst != tmp && a != tmp
    requires dst.Valid() && a.Valid() && tmp.Valid() && dst.obstack.Valid() && tmp.obstack.Valid()
    modifies dst, dst.obstack, dst.Elements(), tmp, tmp.obstack, tmp.elems
    ensures dst.obstack.Valid() && tmp.obstack.Valid() && dst.Links() && Canonical(dst.blocks)
    ensures Members(dst.blocks) == Members(old(a.blocks)) + Members(old(tmp.blocks))
    ensures a.Valid() && a.blocks == old(a.blocks)
    ensures changed <==> Members(dst.blocks) != Members(old(dst.blocks))
    ensures dst.CurrentOk() <==> old(CurrentKept(dst, IorOp, a.blocks, tmp.blocks))
    ensures old(dst.current == dst.first) ==> dst.Valid()
    ensures forall e :: e in old(dst.Elements()) ==> e in dst.Elements()
    ensures forall e :: e in dst.Elements() ==>
      e in old(dst.Elements()) || (tmp.obstack == dst.obstack && e in old(tmp.elems)) || fresh(e)
    ensures forall e :: e in old(tmp.Elements()) ==>
      e in tmp.obstack.free || (tmp.obstack == dst.obstack && e in dst.elems)
    ensures tmp.obstack != dst.obstack ==> forall e :: e in tmp.obstack.free ==> e in old(tmp.Elements()) || fresh(e)
  {
    hide Bitmap.Linked, Bitmap.Holding, Bitmap.Node, Bitmap.Links, Obstack.Valid, Obstack.Linked,
      Sized, Sorted, NonZero, Members, Merge, RawMerge, CurrentSurvives,
      Canonical, CurrentKept, Bitmap.CurrentOk, Bitmap.HasCurrent;
    dst.Separate(tmp);
    if dst.obstack != tmp.obstack {
      ObstacksApart(dst.obstack, tmp.obstack);
      FreeApart(tmp.obstack, dst);
    }
    changed := BitmapIor(dst, a, tmp);
    tmp.Separate(a);
    ClearTemp(dst, tmp);
  }

  /** bitmap_ior_and_compl: dst = a | (from1 & ~from2), through a temporary on the default obstack. */
  method BitmapIorAndCompl(dst: Bitmap, a: Bitmap, from1: Bitmap, from2: Bitmap, defaultObstack: Obstack)
    returns (changed: bool)
    requires dst != a
    requires dst.Valid() && a.Valid() && from1.Valid() && from2.Valid() && dst.obstack.Valid() && defaultObstack.Valid()
    modifies dst, dst.obstack, dst.Elements(), defaultObstack, defaultObstack.free
    ensures dst.obstack.Valid() && defaultObstack.Valid() && dst.Links() && Canonical(dst.blocks)
    ensures dst.Conserves() && (defaultObstack != dst.obstack ==> FreeConserved(defaultObstack))
    ensures Members(dst.blocks) ==
      Members(old(a.blocks)) + (Members(old(from1.blocks)) - Members(old(from2.blocks)))
    ensures a.Valid() && a.blocks == old(a.blocks)
    ensures from1 != dst ==> from1.Valid() && from1.blocks == old(from1.blocks)
    ensures from2 != dst ==> from2.Valid() && from2.blocks == old(from2.blocks)
    ensures changed <==> Members(dst.blocks) != Members(old(dst.blocks))
    ensures dst.CurrentOk() <==> old(CurrentKept(dst, IorOp, a.blocks, DifferenceOf(from1.blocks, from2.blocks)))
    ensures old(dst.current == dst.first) ==> dst.Valid()
  {
    hide Bitmap.Linked, Bitmap.Holding, Bitmap.Node, Bitmap.Links, Obstack.Valid, Obstack.Linked,
      Sized, Sorted, NonZero, Members, Merge, RawMerge, CurrentSurvives, DifferenceOf,
      Canonical, CurrentKept, Bitmap.CurrentOk, Bitmap.HasCurrent;
    Aside(dst, dst, defaultObstack);
    Aside(a, dst, defaultObstack);
    Aside(from1, dst, defaultObstack);
    Aside(from2, dst, defaultObstack);
    if dst.obstack != defaultObstack { ObstacksApart(dst.obstack, defaultObstack); }
    var tmp := Difference(from1, from2, defaultObstack);
    Aside(a, dst, defaultObstack);
    Aside(from1, dst, defaultObstack);
    Aside(from2, dst, defaultObstack);
    if dst.obstack != defaultObstack { ObstacksApart(dst.obstack, defaultObstack); }
    Aside(from1, tmp, defaultObstack);
    Aside(from2, tmp, defaultObstack);
    changed := IorTemp(dst, a, tmp);
  }

  /** a |= tmp, after which the temporary is cleared. */
  method IorIntoTemp(a: Bitmap, tmp: Bitmap) returns (changed: bool)
    requires a != tmp && a.Valid() && tmp.Valid() && a.obstack.Valid() && tmp.obstack.Valid()
    modifies a, a.obstack, a.Elements(), tmp, tmp.obstack, tmp.elems
    ensures a.Valid() && a.obstack.Valid() && tmp.obstack.Valid()
    ensures Members(a.blocks) == Members(old(a.blocks)) + Members(old(tmp.blocks))
    ensures changed <==> Members(a.blocks) != Members(old(a.blocks))
    ensures forall e :: e in old(a.Elements()) ==> e in a.Elements()
    ensures forall e :: e in a.Elements() ==>
      e in old(a.Elements()) || (tmp.obstack == a.obstack && e in old(tmp.elems)) || fresh(e)
    ensures forall e :: e in old(tmp.Elements()) ==>
      e in tmp.obstack.free || (tmp.obstack == a.obstack && e in a.elems)
    ensures tmp.obstack != a.obstack ==> forall e :: e in tmp.obstack.free ==> e in old(tmp.Elements()) || fresh(e)
  {
    hide Bitmap.Linked, Bitmap.Holding, Bitmap.Node, Bitmap.Links, Obstack.Valid, Obstack.Linked,
      Sized, Sorted, NonZero, Members, Merge, RawMerge, CurrentSurvives, Canonical, Bitmap.CurrentOk, Bitmap.HasCurrent;
    a.Separate(tmp);
    if a.obstack != tmp.obstack {
      ObstacksApart(a.obstack, tmp.obstack);
      FreeApart(tmp.obstack, a);
    }
    changed := BitmapIorInto(a, tmp);
    ClearTemp(a, tmp);
  }

  /** bitmap_ior_and_compl_into: a |= from1 & ~from2 */
  method BitmapIorAndComplInto(a: Bitmap, from1: Bitmap, from2: Bitmap, defaultObstack: Obstack)
    returns (changed: bool)
    requires a.Valid() && from1.Valid() && from2.Valid() && a.obstack.Valid() && defaultObstack.Valid()
    modifies a, a.obstack, a.Elements(), defaultObstack, defaultObstack.free
    ensures a.Valid() && a.obstack.Valid() && defaultObstack.Valid()
    ensures a.Conserves() && (defaultObstack != a.obstack ==> FreeConserved(defaultObstack))
    ensures Members(a.blocks) ==
      Members(old(a.blocks)) + (Members(old(from1.blocks)) - Members(old(from2.blocks)))
    ensures from1 != a ==> from1.Valid() && from1.blocks == old(from1.blocks)
    ensures from2 != a ==> from2.Valid() && from2.blocks == old(from2.blocks)
    ensures changed <==> Members(a.blocks) != Members(old(a.blocks))
  {
    hide Bitmap.Linked, Bitmap.Holding, Bitmap.Node, Bitmap.Links, Obstack.Valid, Obstack.Linked,
      Sized, Sorted, NonZero, Members, Merge, RawMerge, CurrentSurvives, DifferenceOf,
      Canonical, CurrentKept, Bitmap.CurrentOk, Bitmap.HasCurrent;
    Aside(a, a, defaultObstack);
    Aside(from1, a, defaultObstack);
    Aside(from2, a, defaultObstack);
    if a.obstack != defaultObstack { ObstacksApart(a.obstack, defaultObstack); }
    var tmp := Difference(from1, from2, defaultObstack);
    Aside(from1, a, defaultObstack);
    Aside(from2, a, defaultObstack);
    if a.obstack != defaultObstack { ObstacksApart(a.obstack, defaultObstack); }
    Aside(from1, tmp, defaultObstack);
    Aside(from2, tmp, defaultObstack);
    changed := IorIntoTemp(a, tmp);
  }

  lemma NoMembers()
    ensures Members([]) == iset{}
  {}
}
