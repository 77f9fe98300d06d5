/** Whole runs: any program of bitmap operations over bitmaps that share an obstack does to them what it does
    to plain sets, gives the same answers, and loses no element. */
module BitmapRuns {
  import opened Words
  import opened Blocks
  import opened Obstacks
  import opened Bitmaps
  import Bits = BitmapBits
  import Ops = BitmapOps
  import Sets = BitmapSets
  import Ranges = BitmapRange
  import Queries = BitmapQueries
  import Iterators = BitmapIterators

  /** The operations, on bitmaps given by number. The obstack the bitmaps share is also the default one. First stands for
      bitmap_first_set_bit behind bitmap_empty_p; the last three for the EXECUTE_IF loops. */
  datatype Operation =
    | SetBit(dst: nat, bit: nat)
    | ClearBit(dst: nat, bit: nat)
    | Clear(dst: nat)
    | ClearRange(dst: nat, start: nat, count: nat)
    | Copy(dst: nat, a: nat)
    | Into(dst: nat, op: BoolOp, a: nat)
    | Three(dst: nat, op: BoolOp, a: nat, b: nat)
    | IorAndCompl(dst: nat, a: nat, from1: nat, from2: nat)
    | IorAndComplInto(dst: nat, from1: nat, from2: nat)
    | TestBit(dst: nat, bit: nat)
    | First(dst: nat)
    | Equal(dst: nat, b: nat)
    | Intersect(dst: nat, b: nat)
    | IntersectCompl(dst: nat, b: nat)
    | IfSet(dst: nat, start: nat)
    | IfAnd(dst: nat, b: nat, start: nat)
    | IfAndCompl(dst: nat, b: nat, start: nat)

  /** What an operation returns, or the bits a loop visits. */
  datatype Answer = Silent | Flag(yes: bool) | Numbers(bits: seq<nat>)

  /** What the operations ask of their callers. */
  predicate Legal(c: Operation, n: nat) {
    c.dst < n &&
    match c
    case ClearRange(dst, start, count) => start + count > 0
    case Copy(dst, a) => a < n
    case Into(dst, op, a) => a < n && (op == ComplAndOp ==> a != dst)
    case Three(dst, op, a, b) => a < n && b < n && a != dst && b != dst && op != ComplAndOp
    case IorAndCompl(dst, a, from1, from2) => a < n && from1 < n && from2 < n && a != dst
    case IorAndComplInto(dst, from1, from2) => from1 < n && from2 < n
    case Equal(dst, b) => b < n
    case Intersect(dst, b) => b < n
    case IntersectCompl(dst, b) => b < n
    case IfAnd(dst, b, start) => b < n
    case IfAndCompl(dst, b, start) => b < n
    case _ => true
  }

  /** The set dst denotes after an operation. */
  ghost function Result(c: Operation, s: seq<iset<nat>>): iset<nat>
    requires Legal(c, |s|)
  {
    match c
    case SetBit(dst, bit) => s[dst] + iset{bit}
    case ClearBit(dst, bit) => s[dst] - iset{bit}
    case Clear(dst) => iset{}
    case ClearRange(dst, start, count) => s[dst] - Ranges.Range(start, start + count)
    case Copy(dst, a) => if a == dst then iset{} else s[a]
    case Into(dst, op, a) => SetOp(op, s[dst], s[a])
    case Three(dst, op, a, b) => SetOp(op, s[a], s[b])
    case IorAndCompl(dst, a, from1, from2) => s[a] + (s[from1] - s[from2])
    case IorAndComplInto(dst, from1, from2) => s[dst] + (s[from1] - s[from2])
    case _ => s[c.dst]
  }

  /** Whether the operation reports a change of dst. */
  predicate Reports(c: Operation) {
    match c
    case Into(dst, op, a) => op == AndComplOp || op == IorOp
    case Three(dst, op, a, b) => op == IorOp
    case IorAndCompl(_, _, _, _) => true
    case IorAndComplInto(_, _, _) => true
    case _ => false
  }

  ghost predicate Enumerates(r: Answer, s: iset<nat>, start: nat) {
    r.Numbers? && Iterators.Increasing(r.bits) && forall x: nat :: x in r.bits <==> x in s && start <= x
  }

  /** r is the right answer. */
  ghost predicate Answers(c: Operation, s: seq<iset<nat>>, r: Answer)
    requires Legal(c, |s|)
  {
    if Reports(c) then r == Flag(Result(c, s) != s[c.dst])
    else match c
    case TestBit(dst, bit) => r == Flag(bit in s[dst])
    case First(dst) =>
      r.Numbers? && if s[dst] == iset{} then r.bits == []
                    else |r.bits| == 1 && r.bits[0] in s[dst] && forall x: nat :: x in s[dst] ==> r.bits[0] <= x
    case Equal(dst, b) => r == Flag(s[dst] == s[b])
    case Intersect(dst, b) => r == Flag(s[dst] * s[b] != iset{})
    case IntersectCompl(dst, b) => r == Flag(s[dst] - s[b] != iset{})
    case IfSet(dst, start) => Enumerates(r, s[dst], start)
    case IfAnd(dst, b, start) => Enumerates(r, s[dst] * s[b], start)
    case IfAndCompl(dst, b, start) => Enumerates(r, s[dst] - s[b], start)
    case _ => r == Silent
  }

  ghost function After(c: Operation, s: seq<iset<nat>>): (r: seq<iset<nat>>)
    requires Legal(c, |s|)
    ensures |r| == |s|
  {
    s[c.dst := Result(c, s)]
  }

  ghost predicate AllLegal(cs: seq<Operation>, n: nat) {
    forall i :: 0 <= i < |cs| ==> Legal(cs[i], n)
  }

  /** The same program on plain sets. */
  ghost function AfterAll(cs: seq<Operation>, s: seq<iset<nat>>): (r: seq<iset<nat>>)
    requires AllLegal(cs, |s|)
    ensures |r| == |s|
  {
    if cs == [] then s else After(cs[|cs| - 1], AfterAll(cs[..|cs| - 1], s))
  }

  /** The answers are those of the program on plain sets. */
  ghost predicate AllAnswers(cs: seq<Operation>, s: seq<iset<nat>>, rs: seq<Answer>)
    requires AllLegal(cs, |s|)
  {
    |rs| == |cs| && (cs == [] ||
      var n := |cs| - 1;
      AllAnswers(cs[..n], s, rs[..n]) && Answers(cs[n], AfterAll(cs[..n], s), rs[n]))
  }

  lemma NothingRun(s: seq<iset<nat>>)
    ensures AfterAll([], s) == s && AllAnswers([], s, [])
  {}

  lemma AfterOneMore(cs: seq<Operation>, i: nat, s: seq<iset<nat>>)
    requires AllLegal(cs, |s|) && i < |cs|
    ensures AfterAll(cs[..i + 1], s) == After(cs[i], AfterAll(cs[..i], s))
  {
    assert cs[..i + 1][..i] == cs[..i];
  }

  lemma OneMore(cs: seq<Operation>, i: nat, s: seq<iset<nat>>, rs: seq<Answer>, r: Answer)
    requires AllLegal(cs, |s|) && i < |cs| && AllAnswers(cs[..i], s, rs) && Answers(cs[i], AfterAll(cs[..i], s), r)
    ensures AllAnswers(cs[..i + 1], s, rs + [r])
  {
    hide Answers, Legal, After;
    assert cs[..i + 1][..i] == cs[..i] && (rs + [r])[..i] == rs;
  }

  // ---- bitmaps sharing an obstack ----

  /** All is well but for the position of `current` in bitmap d. */
  ghost predicate PoolBut(maps: seq<Bitmap>, o: Obstack, d: nat)
    reads maps, o, o.free, set m, i | 0 <= m < |maps| && 0 <= i < |maps[m].elems| :: maps[m].elems[i]
  {
    && o.Valid()
    && (forall m, n :: 0 <= m < n < |maps| ==> maps[m] != maps[n])
    && (forall m :: 0 <= m < |maps| ==> maps[m].obstack == o && maps[m].Links() && Canonical(maps[m].blocks))
    && (forall m :: 0 <= m < |maps| && m != d ==> maps[m].CurrentOk())
  }

  ghost predicate Pool(maps: seq<Bitmap>, o: Obstack)
    reads maps, o, o.free, set m, i | 0 <= m < |maps| && 0 <= i < |maps[m].elems| :: maps[m].elems[i]
  {
    && o.Valid()
    && (forall m, n :: 0 <= m < n < |maps| ==> maps[m] != maps[n])
    && (forall m :: 0 <= m < |maps| ==> maps[m].obstack == o && maps[m].Valid())
  }

  ghost function Meaning(maps: seq<Bitmap>): (s: seq<iset<nat>>)
    reads maps
    ensures |s| == |maps| && forall m :: 0 <= m < |s| ==> s[m] == Members(maps[m].blocks)
  {
    seq(|maps|, m requires 0 <= m < |maps| reads maps => Members(maps[m].blocks))
  }

  /** All elements of the pool: those in a list, and those free. */
  ghost function Elements(maps: seq<Bitmap>, o: Obstack): set<Element>
    reads maps, o
  {
    (set e | e in o.free) + (set m, e | 0 <= m < |maps| && e in maps[m].elems :: e)
  }

  /** No element is in two places. */
  lemma InOnePlace(maps: seq<Bitmap>, o: Obstack, d: nat)
    requires PoolBut(maps, o, d)
    ensures forall m, i, j :: 0 <= m < |maps| && 0 <= i < j < |maps[m].elems| ==> maps[m].elems[i] != maps[m].elems[j]
    ensures forall m, n, i, j :: 0 <= m < n < |maps| && 0 <= i < |maps[m].elems| && 0 <= j < |maps[n].elems| ==>
              maps[m].elems[i] != maps[n].elems[j]
    ensures forall m, i, j :: 0 <= m < |maps| && 0 <= i < |maps[m].elems| && 0 <= j < |o.free| ==>
              maps[m].elems[i] != o.free[j]
    ensures forall i, j :: 0 <= i < j < |o.free| ==> o.free[i] != o.free[j]
  {}

  ghost predicate KeptByThree(dst: Bitmap, op: BoolOp, a: Bitmap, b: Bitmap)
    requires dst.Valid() && a.Valid() && b.Valid()
    reads dst, dst.elems, a, a.elems, b, b.elems
  {
    Sets.CurrentKept(dst, op, a.blocks, b.blocks)
  }

  ghost predicate KeptByIorAndCompl(dst: Bitmap, a: Bitmap, from1: Bitmap, from2: Bitmap)
    requires dst.Valid() && a.Valid() && from1.Valid() && from2.Valid()
    reads dst, dst.elems, a, a.elems, from1, from1.elems, from2, from2.elems
  {
    Sets.CurrentKept(dst, IorOp, a.blocks, Sets.DifferenceOf(from1.blocks, from2.blocks))
  }

  /** The operation leaves `current` of its destination in the list. Only the three-operand forms may fail to. */
  ghost predicate Safe(c: Operation, maps: seq<Bitmap>, o: Obstack)
    requires Pool(maps, o) && Legal(c, |maps|)
    reads maps, o, o.free, set m, i | 0 <= m < |maps| && 0 <= i < |maps[m].elems| :: maps[m].elems[i]
  {
    match c
    case Three(dst, op, a, b) => (a == b && op != IorOp) || KeptByThree(maps[dst], op, maps[a], maps[b])
    case IorAndCompl(dst, a, from1, from2) => KeptByIorAndCompl(maps[dst], maps[a], maps[from1], maps[from2])
    case _ => true
  }

  /** The operations on single bits and bitmaps, and those in place. */
  method PerformInPlace(c: Operation, maps: seq<Bitmap>, o: Obstack) returns (r: Answer)
    requires Pool(maps, o) && Legal(c, |maps|)
    requires c.SetBit? || c.ClearBit? || c.Clear? || c.ClearRange? || c.Copy? || c.Into? || c.IorAndComplInto?
    modifies maps[c.dst], o, maps[c.dst].Elements()
    ensures o.Valid() && maps[c.dst].Valid() && maps[c.dst].Conserves()
    ensures Members(maps[c.dst].blocks) == Result(c, old(Meaning(maps)))
    ensures Answers(c, old(Meaning(maps)), r)
  {
    hide Bitmap.Linked, Bitmap.Holding, Bitmap.Node, Bitmap.Links, Bitmap.CurrentOk, Obstack.Valid, Obstack.Linked,
      Canonical, Members, Ranges.Range;
    var dst := maps[c.dst];
    Sets.NoMembers();
    r := Silent;
    match c
    case SetBit(_, bit) => Bits.SetBit(dst, bit);
    case ClearBit(_, bit) => Bits.ClearBit(dst, bit);
    case Clear(_) => Bits.Clear(dst);
    case ClearRange(_, start, count) => Ranges.ClearRange(dst, start, count);
    case Copy(_, a) => Ops.CopyTo(dst, maps[a]);
    case Into(_, op, a) => r := PerformInto(dst, op, maps[a]);
    case IorAndComplInto(_, from1, from2) =>
      var changed := Sets.BitmapIorAndComplInto(dst, maps[from1], maps[from2], o);
      r := Flag(changed);
  }

  method PerformInto(dst: Bitmap, op: BoolOp, a: Bitmap) returns (r: Answer)
    requires dst.Valid() && a.Valid() && dst.obstack.Valid() && (op == ComplAndOp ==> a != dst)
    modifies dst, dst.obstack, dst.Elements()
    ensures dst.obstack.Valid() && dst.Valid() && dst.Conserves()
    ensures Members(dst.blocks) == SetOp(op, Members(old(dst.blocks)), Members(old(a.blocks)))
    ensures r == if op == AndComplOp || op == IorOp then Flag(Members(dst.blocks) != Members(old(dst.blocks))) else Silent
  {
    hide Bitmap.Linked, Bitmap.Holding, Bitmap.Node, Bitmap.Links, Bitmap.CurrentOk, Obstack.Valid, Obstack.Linked,
      Canonical, Members;
    r := Silent;
    match op {
      case AndOp => Sets.BitmapAndInto(dst, a);
      case AndComplOp =>
        var changed := Sets.BitmapAndComplInto(dst, a);
        r := Flag(changed);
      case ComplAndOp => Sets.BitmapComplAndInto(dst, a);
      case IorOp =>
        var changed := Sets.BitmapIorInto(dst, a);
        r := Flag(changed);
      case XorOp => Sets.BitmapXorInto(dst, a);
    }
  }

  /** The three-operand forms. */
  method PerformThree(c: Operation, maps: seq<Bitmap>, o: Obstack) returns (r: Answer)
    requires Pool(maps, o) && Legal(c, |maps|) && (c.Three? || c.IorAndCompl?)
    modifies maps[c.dst], o, maps[c.dst].Elements()
    ensures o.Valid() && maps[c.dst].Links() && Canonical(maps[c.dst].blocks) && maps[c.dst].Conserves()
    ensures maps[c.dst].CurrentOk() <==> old(Safe(c, maps, o))
    ensures Members(maps[c.dst].blocks) == Result(c, old(Meaning(maps)))
    ensures Answers(c, old(Meaning(maps)), r)
  {
    hide Bitmap.Linked, Bitmap.Holding, Bitmap.Node, Bitmap.Links, Bitmap.CurrentOk, Obstack.Valid, Obstack.Linked,
      Canonical, Members, Sets.CurrentKept, Sets.DifferenceOf;
    var dst := maps[c.dst];
    r := Silent;
    match c
    case Three(_, op, a, b) =>
      match op {
        case AndOp => Sets.BitmapAnd(dst, maps[a], maps[b]);
        case AndComplOp => Sets.BitmapAndCompl(dst, maps[a], maps[b]);
        case IorOp =>
          var changed := Sets.BitmapIor(dst, maps[a], maps[b]);
          r := Flag(changed);
        case XorOp => Sets.BitmapXor(dst, maps[a], maps[b]);
      }
    case IorAndCompl(_, a, from1, from2) =>
      var changed := Sets.BitmapIorAndCompl(dst, maps[a], maps[from1], maps[from2], o);
      r := Flag(changed);
  }

  /** The operations that only ask; of these bitmap_bit_p moves `current`. */
  method Ask(c: Operation, maps: seq<Bitmap>, o: Obstack, dst: Bitmap) returns (r: Answer)
    requires Pool(maps, o) && Legal(c, |maps|) && dst == maps[c.dst]
    requires c.TestBit? || c.First? || c.Equal? || c.Intersect? || c.IntersectCompl? || c.IfSet? || c.IfAnd? || c.IfAndCompl?
    modifies dst`current, dst`indx
    ensures dst.Valid()
    ensures Answers(c, old(Meaning(maps)), r)
  {
    hide Bitmap.Linked, Bitmap.Holding, Bitmap.Node, Bitmap.Links, Bitmap.CurrentOk, Obstack.Valid, Obstack.Linked,
      Canonical, Members, Iterators.Increasing;
    match c
    case TestBit(_, bit) =>
      var yes := Bits.BitP(dst, bit);
      r := Flag(yes);
    case First(_) => r := AskFirst(dst);
    case Equal(_, b) =>
      var yes := Queries.EqualP(dst, maps[b]);
      r := Flag(yes);
    case Intersect(_, b) =>
      var yes := Queries.IntersectP(dst, maps[b]);
      r := Flag(yes);
    case IntersectCompl(_, b) =>
      var yes := Queries.IntersectComplP(dst, maps[b]);
      r := Flag(yes);
    case IfSet(_, start) =>
      var zero := ZeroElement();
      var bits := Iterators.ExecuteIfSet(dst, start, zero);
      r := Numbers(bits);
    case IfAnd(_, b, start) =>
      var zero := ZeroElement();
      var bits := Iterators.ExecuteIfAnd(dst, maps[b], start, zero);
      r := Numbers(bits);
    case IfAndCompl(_, b, start) =>
      var zero := ZeroElement();
      var bits := Iterators.ExecuteIfAndCompl(dst, maps[b], start, zero);
      r := Numbers(bits);
  }

  method AskFirst(dst: Bitmap) returns (r: Answer)
    requires dst.Valid()
    ensures r.Numbers? && if Members(dst.blocks) == iset{} then r.bits == []
                          else |r.bits| == 1 && r.bits[0] in Members(dst.blocks)
                               && forall x: nat :: x in Members(dst.blocks) ==> r.bits[0] <= x
  {
    hide Bitmap.Linked, Bitmap.Holding, Bitmap.Node, Bitmap.Links, Bitmap.CurrentOk, Canonical, Members;
    dst.Ends();
    if dst.first == null {
      Sets.NoMembers();
      r := Numbers([]);
    } else {
      var bit := Queries.FirstSetBit(dst);
      r := Numbers([bit]);
    }
  }

  /** The operation, as far as its destination is concerned. */
  method Perform(c: Operation, maps: seq<Bitmap>, o: Obstack) returns (r: Answer)
    requires Pool(maps, o) && Legal(c, |maps|)
    modifies maps[c.dst], o, maps[c.dst].Elements()
    ensures o.Valid() && maps[c.dst].Links() && Canonical(maps[c.dst].blocks) && maps[c.dst].Conserves()
    ensures maps[c.dst].CurrentOk() <==> old(Safe(c, maps, o))
    ensures Members(maps[c.dst].blocks) == Result(c, old(Meaning(maps)))
    ensures Answers(c, old(Meaning(maps)), r)
  {
    hide Bitmap.Linked, Bitmap.Holding, Bitmap.Node, Bitmap.Links, Bitmap.CurrentOk, Obstack.Valid, Obstack.Linked,
      Canonical, Members, Result, Answers, Safe;
    OthersSafe(c, maps, o);
    if c.Three? || c.IorAndCompl? {
      r := PerformThree(c, maps, o);
    } else if c.TestBit? || c.First? || c.Equal? || c.Intersect? || c.IntersectCompl? || c.IfSet? || c.IfAnd? || c.IfAndCompl? {
      ResultOfAsking(c, Meaning(maps));
      r := Ask(c, maps, o, maps[c.dst]);
    } else {
      r := PerformInPlace(c, maps, o);
    }
  }

  /** One operation: the other bitmaps stay as they are, no element is lost, and all is well afterwards if and only if the
      operation is safe. */
  method Step(c: Operation, maps: seq<Bitmap>, o: Obstack) returns (r: Answer)
    requires Pool(maps, o) && Legal(c, |maps|)
    modifies maps[c.dst], o, maps[c.dst].Elements()
    ensures PoolBut(maps, o, c.dst) && (Pool(maps, o) <==> old(Safe(c, maps, o)))
    ensures maps[c.dst].CurrentOk() <==> Pool(maps, o)
    ensures Meaning(maps) == After(c, old(Meaning(maps))) && Answers(c, old(Meaning(maps)), r)
    ensures old(Elements(maps, o)) <= Elements(maps, o)
    ensures forall e :: e in Elements(maps, o) ==> e in old(Elements(maps, o)) || fresh(e)
  {
    hide Bitmap.Linked, Bitmap.Holding, Bitmap.Node, Bitmap.Links, Bitmap.CurrentOk, Obstack.Valid, Obstack.Linked,
      Canonical, Members, Result, Legal, Answers, Safe;
    LegalDst(c, |maps|);
    var d := c.dst;
    forall m | 0 <= m < |maps| && m != d
      ensures maps[m] != maps[d] && forall i :: 0 <= i < |maps[m].elems| ==> maps[m].elems[i] !in maps[d].Elements()
    {
      maps[d].Separate(maps[m]);
    }
    SplitElements(maps, o, d);
    r := Perform(c, maps, o);
    forall m | 0 <= m < |maps| && m != d
      ensures maps[m].Valid() && maps[m].blocks == old(maps[m].blocks) && maps[m].elems == old(maps[m].elems)
    {
      assert old(maps[m].Valid());
    }
    SplitElements(maps, o, d);
  }

  lemma ResultOfAsking(c: Operation, s: seq<iset<nat>>)
    requires Legal(c, |s|)
    requires c.TestBit? || c.First? || c.Equal? || c.Intersect? || c.IntersectCompl? || c.IfSet? || c.IfAnd? || c.IfAndCompl?
    ensures Result(c, s) == s[c.dst]
  {}

  /** Any program, up to and including the first operation that leaves a `current` outside its list. */
  method Run(cs: seq<Operation>, maps: seq<Bitmap>, o: Obstack) returns (done: nat, rs: seq<Answer>)
    requires Pool(maps, o) && AllLegal(cs, |maps|)
    modifies maps, o, Elements(maps, o)
    ensures done <= |cs| && Meaning(maps) == AfterAll(cs[..done], old(Meaning(maps)))
    ensures AllAnswers(cs[..done], old(Meaning(maps)), rs)
    ensures done < |cs| ==> !Pool(maps, o)
    ensures !Pool(maps, o) ==> done > 0 && (cs[done - 1].Three? || cs[done - 1].IorAndCompl?) && PoolBut(maps, o, cs[done - 1].dst)
    ensures old(Elements(maps, o)) <= Elements(maps, o)
    ensures forall e :: e in Elements(maps, o) ==> e in old(Elements(maps, o)) || fresh(e)
  {
    hide Pool, PoolBut, Legal, Meaning, AfterAll, After, Answers, AllAnswers, Safe, Elements, Bitmap.Elements,
      Bitmap.Links, Bitmap.CurrentOk;
    done, rs := 0, [];
    NothingRun(Meaning(maps));
    assert cs[..0] == [];
    while done < |cs|
      invariant done <= |cs| && Pool(maps, o)
      invariant Meaning(maps) == AfterAll(cs[..done], old(Meaning(maps)))
      invariant AllAnswers(cs[..done], old(Meaning(maps)), rs)
      invariant old(Elements(maps, o)) <= Elements(maps, o)
      invariant forall e :: e in Elements(maps, o) ==> e in old(Elements(maps, o)) || fresh(e)
    {
      var r, ok := CheckedStep(cs[done], maps, o);
      AfterOneMore(cs, done, old(Meaning(maps)));
      OneMore(cs, done, old(Meaning(maps)), rs, r);
      done, rs := done + 1, rs + [r];
      if !ok { return; }
    }
  }

  /** One operation, and whether it has left `current` in the list. */
  method CheckedStep(c: Operation, maps: seq<Bitmap>, o: Obstack) returns (r: Answer, ok: bool)
    requires Pool(maps, o) && Legal(c, |maps|)
    modifies maps, o, Elements(maps, o)
    ensures ok <==> Pool(maps, o)
    ensures !ok ==> (c.Three? || c.IorAndCompl?) && PoolBut(maps, o, c.dst)
    ensures Meaning(maps) == After(c, old(Meaning(maps))) && Answers(c, old(Meaning(maps)), r)
    ensures old(Elements(maps, o)) <= Elements(maps, o)
    ensures forall e :: e in Elements(maps, o) ==> e in old(Elements(maps, o)) || fresh(e)
  {
    hide Pool, PoolBut, Legal, Meaning, After, Answers, Safe, Elements, Bitmap.Elements, Bitmap.Links, Bitmap.CurrentOk;
    LegalDst(c, |maps|);
    OneOf(maps, o, c.dst);
    OthersSafe(c, maps, o);
    r := Step(c, maps, o);
    LinksOf(maps, o, c.dst);
    ok := CurrentListed(maps[c.dst]);
  }

  /** Whether `current` is in the list, found by walking it. */
  method CurrentListed(head: Bitmap) returns (ok: bool)
    requires head.Links()
    ensures ok <==> head.CurrentOk()
  {
    hide Bitmap.Linked, Bitmap.Holding, Bitmap.Node, Bitmap.Links;
    head.Ends();
    var elt := head.first;
    ghost var k: nat := 0;
    while elt != null
      invariant k <= |head.elems| && elt == Nth(head.elems, k) && forall i :: 0 <= i < k ==> head.elems[i] != head.current
      decreases |head.elems| - k
    {
      if elt == head.current { return head.indx == elt.indx; }
      head.NodeAt(k);
      elt := elt.next;
      k := k + 1;
    }
    ok := head.first == null && head.current == null;
  }

  ghost function OtherElements(maps: seq<Bitmap>, d: nat): set<Element>
    reads maps`elems
  {
    set m, e | 0 <= m < |maps| && m != d && e in maps[m].elems :: e
  }

  lemma SplitElements(maps: seq<Bitmap>, o: Obstack, d: nat)
    requires d < |maps| && maps[d].obstack == o
    ensures Elements(maps, o) == maps[d].Elements() + OtherElements(maps, d)
  {}

  lemma LegalDst(c: Operation, n: nat)
    requires Legal(c, n)
    ensures c.dst < n
  {}

  lemma OthersSafe(c: Operation, maps: seq<Bitmap>, o: Obstack)
    requires Pool(maps, o) && Legal(c, |maps|)
    ensures c.Three? || c.IorAndCompl? || Safe(c, maps, o)
  {}

  lemma OneOf(maps: seq<Bitmap>, o: Obstack, d: nat)
    requires Pool(maps, o) && d < |maps|
    ensures maps[d].Elements() <= Elements(maps, o)
  {}

  lemma LinksOf(maps: seq<Bitmap>, o: Obstack, d: nat)
    requires PoolBut(maps, o, d) && d < |maps|
    ensures maps[d].Links()
  {}

  // ---- `current` can be lost ----

  lemma BlockOf(bs: seq<Block>, x: nat) returns (k: nat)
    requires x in Members(bs)
    ensures k < |bs| && bs[k].indx == x / ELEMENT_BITS
  {
    hide BitOf;
    assert In(bs, x);
    k :| k < |bs| && InBlock(bs[k], x);
  }

  lemma BitIn(bs: seq<Block>, k: nat) returns (x: nat)
    requires Canonical(bs) && k < |bs|
    ensures x in Members(bs) && x / ELEMENT_BITS == bs[k].indx
  {
    SomeBitIfNonZero(bs[k]);
    x :| InBlock(bs[k], x);
    assert In(bs, x);
  }

  /** Two bits in two elements: two blocks. */
  lemma TwoBlocks(bs: seq<Block>)
    requires Canonical(bs) && Members(bs) == iset{0, ELEMENT_BITS}
    ensures |bs| == 2 && bs[0].indx == 0 && bs[1].indx == 1
  {
    hide Members;
    var k0 := BlockOf(bs, 0);
    var k1 := BlockOf(bs, ELEMENT_BITS);
    var x0 := BitIn(bs, 0);
    var x1 := BitIn(bs, 1);
    if |bs| > 2 { var x2 := BitIn(bs, 2); }
  }

  /** One bit: one block, and intersecting it with itself gives it back in one step. */
  lemma OneBlock(bs: seq<Block>, x: nat)
    requires Canonical(bs) && Members(bs) == iset{x}
    ensures |bs| == 1 && bs[0].indx == x / ELEMENT_BITS
    ensures DropZero(RawMerge(AndOp, bs, 0, bs, 0)) == bs && !Touched(RawMerge(AndOp, bs, 0, bs, 0))
  {
    hide Members;
    var k := BlockOf(bs, x);
    var y := BitIn(bs, 0);
    if |bs| > 1 { var z := BitIn(bs, 1); }
    MergeMeaning(AndOp, bs, bs);
    CanonicalUnique(Merge(AndOp, bs, bs), bs);
    var raw := RawMerge(AndOp, bs, 0, bs, 0);
    assert |raw| == 1 by {
      hide WordsOp;
      assert RawMerge(AndOp, bs, 1, bs, 1) == [];
    }
    assert raw == [raw[0]];
  }

  /** It is: dst holds two elements with `current` on the second, and the intersection is one element far beyond. */
  method CurrentCanBeLost() returns (dst: Bitmap)
    ensures dst.Links() && dst.obstack.Valid() && !dst.CurrentOk()
  {
    hide Bitmap.Linked, Bitmap.Holding, Bitmap.Node, Bitmap.Links, Bitmap.CurrentOk, Obstack.Valid, Obstack.Linked,
      Canonical, Members, Legal, AfterAll, AllAnswers, Pool, PoolBut, Meaning;
    var a, b;
    dst, a, b := SetUp();
    var yes := Bits.BitP(dst, ELEMENT_BITS);
    CurrentFarBehind(dst, a, b);
    Sets.BitmapAnd(dst, a, b);
  }

  method SetUp() returns (dst: Bitmap, a: Bitmap, b: Bitmap)
    ensures fresh(dst) && fresh(dst.obstack) && (forall e :: e in dst.Elements() ==> fresh(e)) && dst != a && dst != b && a != b
    ensures dst.Valid() && a.Valid() && b.Valid() && dst.obstack.Valid()
    ensures Members(dst.blocks) == iset{0, ELEMENT_BITS} && Members(a.blocks) == Members(b.blocks) == iset{7 * ELEMENT_BITS}
  {
    hide Bitmap.Valid, Obstack.Valid, Members, AllLegal, AfterAll, AllAnswers, Pool, Elements, Meaning, Bitmap.Elements;
    var o := new Obstack();
    dst := new Bitmap(o);
    a := new Bitmap(o);
    b := new Bitmap(o);
    var maps := [dst, a, b];
    NewPool(maps, o);
    AfterFour();
    var done, rs := Run(FOUR_BITS, maps, o);
    assert FOUR_BITS[..done] == FOUR_BITS;
    PoolAt(maps, o, 0);
    PoolAt(maps, o, 1);
    PoolAt(maps, o, 2);
  }

  lemma NewPool(maps: seq<Bitmap>, o: Obstack)
    requires o.Valid() && o.free == [] && |maps| == 3 && maps[0] != maps[1] && maps[0] != maps[2] && maps[1] != maps[2]
    requires forall m :: 0 <= m < 3 ==> maps[m].obstack == o && maps[m].Valid() && maps[m].blocks == [] && maps[m].elems == []
    ensures Pool(maps, o) && Elements(maps, o) == {} && Meaning(maps) == [iset{}, iset{}, iset{}]
  {
    Sets.NoMembers();
  }

  lemma PoolAt(maps: seq<Bitmap>, o: Obstack, m: nat)
    requires Pool(maps, o) && m < |maps|
    ensures o.Valid() && maps[m].obstack == o && maps[m].Valid() && Meaning(maps)[m] == Members(maps[m].blocks)
    ensures maps[m].Elements() <= Elements(maps, o)
  {}

  const FOUR_BITS: seq<Operation> :=
    [SetBit(0, 0), SetBit(0, ELEMENT_BITS), SetBit(1, 7 * ELEMENT_BITS), SetBit(2, 7 * ELEMENT_BITS)]

  lemma AfterFour()
    ensures AllLegal(FOUR_BITS, 3)
    ensures AfterAll(FOUR_BITS, [iset{}, iset{}, iset{}]) == [iset{0, ELEMENT_BITS}, iset{7 * ELEMENT_BITS}, iset{7 * ELEMENT_BITS}]
    ensures forall i :: 0 <= i < 4 ==> FOUR_BITS[i].SetBit?
  {
    hide AfterAll;
    var s: seq<iset<nat>> := [iset{}, iset{}, iset{}];
    NothingRun(s);
    assert FOUR_BITS[..0] == [] && FOUR_BITS[..4] == FOUR_BITS;
    AfterOneMore(FOUR_BITS, 0, s);
    AfterOneMore(FOUR_BITS, 1, s);
    AfterOneMore(FOUR_BITS, 2, s);
    AfterOneMore(FOUR_BITS, 3, s);
    var x, y: iset<nat> := iset{0, ELEMENT_BITS}, iset{7 * ELEMENT_BITS};
    assert After(FOUR_BITS[0], s)[0] == iset{0};
    assert After(FOUR_BITS[1], After(FOUR_BITS[0], s))[0] == x;
    assert After(FOUR_BITS[2], After(FOUR_BITS[1], After(FOUR_BITS[0], s)))[1] == y;
    assert After(FOUR_BITS[3], After(FOUR_BITS[2], After(FOUR_BITS[1], After(FOUR_BITS[0], s))))[2] == y;
  }

  lemma CurrentFarBehind(dst: Bitmap, a: Bitmap, b: Bitmap)
    requires dst.Valid() && a.Valid() && b.Valid() && Members(dst.blocks) == iset{0, ELEMENT_BITS}
    requires Members(a.blocks) == Members(b.blocks) == iset{7 * ELEMENT_BITS}
    requires dst.current != null && dst.current.indx == 1
    ensures !Sets.CurrentKept(dst, AndOp, a.blocks, b.blocks)
  {
    hide Members, RawMerge, DropZero, Touched;
    CanonicalUnique(a.blocks, b.blocks);
    TwoBlocks(dst.blocks);
    OneBlock(a.blocks, 7 * ELEMENT_BITS);
  }
}
