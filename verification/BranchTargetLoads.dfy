/** The dataflow of bt-load.c: reaching definitions of branch target registers and growing a live range. */
module BranchTargetLoads {
  type Block = nat
  type Def = nat
  type Reg = nat

  const ENTRY_BLOCK: Block := 0
  const EXIT_BLOCK: Block := 1
  const NUM_FIXED_BLOCKS: nat := 2

  /** The flow graph, block by block the sources of its predecessor edges. */
  datatype Flow = Flow(preds: seq<seq<Block>>) {
    predicate Valid() {
      NUM_FIXED_BLOCKS <= |preds|
      && forall b: nat, k: nat :: b < |preds| && k < |preds[b]| ==> preds[b][k] < |preds| && preds[b][k] != EXIT_BLOCK
    }

    predicate Real(b: Block) {
      NUM_FIXED_BLOCKS <= b < |preds|
    }

    predicate Edge(a: Block, b: Block) {
      b < |preds| && a in preds[b]
    }

    ghost predicate Path(p: seq<Block>) {
      p != [] && p[0] < |preds| && forall i: nat :: 0 < i < |p| ==> Edge(p[i - 1], p[i])
    }
  }

  // ---- compute_kill ----

  /** One of the branch target registers first..last that w holds is set by d. */
  ghost predicate Overwritten(w: set<Reg>, d: Def, defset: seq<set<Def>>, allBtrs: set<Reg>, first: Reg, last: Reg)
    requires first <= last + 1 && last - first < |defset|
  {
    exists r: Reg :: first <= r <= last && r in allBtrs && r in w && d in defset[r - first]
  }

  /** compute_kill: a block kills the definitions of every branch target register it writes. */
  method ComputeKill(kill: array<set<Def>>, defset: seq<set<Def>>, written: seq<set<Reg>>, allBtrs: set<Reg>, first: Reg, last: Reg)
    requires first <= last && |defset| == last - first + 1 && |written| == kill.Length
    modifies kill
    ensures forall b: nat, d :: b < kill.Length ==>
      (d in kill[b] <==> b >= NUM_FIXED_BLOCKS && Overwritten(written[b], d, defset, allBtrs, first, last))
  {
    for i := 0 to kill.Length
      invariant forall b: nat :: b < i ==> kill[b] == {}
    {
      kill[i] := {};
    }
    var i := NUM_FIXED_BLOCKS;
    while i < kill.Length
      invariant i >= NUM_FIXED_BLOCKS
      invariant forall b: nat :: b < kill.Length && (b < NUM_FIXED_BLOCKS || i <= b) ==> kill[b] == {}
      invariant forall b: nat, d :: b < i && b < kill.Length ==>
        (d in kill[b] <==> b >= NUM_FIXED_BLOCKS && Overwritten(written[b], d, defset, allBtrs, first, last))
    {
      ghost var before := kill[..];
      var regno := first;
      while regno <= last
        invariant first <= regno <= last + 1
        invariant forall b: nat :: b < kill.Length && b != i ==> kill[b] == before[b]
        invariant forall d :: d in kill[i] <==>
          exists r: Reg :: first <= r < regno && r in allBtrs && r in written[i] && d in defset[r - first]
      {
        if regno in allBtrs && regno in written[i] {
          kill[i] := kill[i] + defset[regno - first];
        }
        regno := regno + 1;
      }
      i := i + 1;
    }
  }

  // ---- compute_out ----

  /** The union of s over the predecessors of b; the entry block defines nothing. */
  ghost function In(g: Flow, s: seq<set<Def>>, b: Block): set<Def>
    requires g.Valid() && b < |g.preds| == |s|
  {
    set p, d | p in g.preds[b] && p != ENTRY_BLOCK && d in s[p] :: d
  }

  /** sbitmap_union_of_preds: copy from the first predecessor that is not the entry, then add the rest. */
  method UnionOfPreds(g: Flow, src: array<set<Def>>, b: Block) returns (dst: set<Def>)
    requires g.Valid() && b < |g.preds| == src.Length
    ensures dst == In(g, src[..], b)
  {
    var preds := g.preds[b];
    var ix := 0;
    while ix < |preds| && preds[ix] == ENTRY_BLOCK
      invariant 0 <= ix <= |preds| && forall k: nat :: k < ix ==> preds[k] == ENTRY_BLOCK
    {
      ix := ix + 1;
    }
    if ix == |preds| {
      return {};
    }
    dst := src[preds[ix]];
    ix := ix + 1;
    while ix < |preds|
      invariant 1 <= ix <= |preds|
      invariant forall d :: d in dst <==> exists k: nat :: k < ix && preds[k] != ENTRY_BLOCK && d in src[preds[k]]
    {
      if preds[ix] != ENTRY_BLOCK {
        dst := dst + src[preds[ix]];
      }
      ix := ix + 1;
    }
  }

  ghost function Transfer(g: Flow, gen: seq<set<Def>>, kill: seq<set<Def>>, s: seq<set<Def>>, b: Block): set<Def>
    requires g.Valid() && b < |g.preds| == |s| == |gen| == |kill|
  {
    gen[b] + (In(g, s, b) - kill[b])
  }

  /** OUT = GEN + (union of the predecessors' OUT - KILL), for every block but the fixed ones. */
  ghost predicate Solves(g: Flow, gen: seq<set<Def>>, kill: seq<set<Def>>, s: seq<set<Def>>)
    requires g.Valid() && |g.preds| == |s| == |gen| == |kill|
  {
    forall b: Block :: g.Real(b) ==> s[b] == Transfer(g, gen, kill, s, b)
  }

  /** p is a path of blocks none of which, after the first, kills d. */
  ghost predicate Carries(g: Flow, kill: seq<set<Def>>, d: Def, p: seq<Block>)
    requires |g.preds| == |kill|
  {
    p != [] && (forall i: nat :: i < |p| ==> g.Real(p[i]))
    && forall i: nat :: 0 < i < |p| ==> g.Edge(p[i - 1], p[i]) && d !in kill[p[i]]
  }

  /** d gets to the end of b from a block that generates it, along a path on which no later block kills it. */
  ghost predicate Reaches(g: Flow, gen: seq<set<Def>>, kill: seq<set<Def>>, d: Def, b: Block)
    requires |g.preds| == |gen| == |kill|
  {
    exists p :: Carries(g, kill, d, p) && p[|p| - 1] == b && d in gen[p[0]]
  }

  /** Every block has what the equation asks it for; a solution satisfies this with equality. */
  ghost predicate Covers(g: Flow, gen: seq<set<Def>>, kill: seq<set<Def>>, s: seq<set<Def>>)
    requires g.Valid() && |g.preds| == |s| == |gen| == |kill|
  {
    forall b: Block :: g.Real(b) ==> Transfer(g, gen, kill, s, b) <= s[b]
  }

  /** Whatever covers the equations has every definition that reaches. */
  lemma {:induction false} CarriedIntoAny(g: Flow, gen: seq<set<Def>>, kill: seq<set<Def>>, s: seq<set<Def>>, d: Def, p: seq<Block>)
    requires g.Valid() && |g.preds| == |s| == |gen| == |kill| && Covers(g, gen, kill, s)
    requires Carries(g, kill, d, p) && d in gen[p[0]]
    ensures d in s[p[|p| - 1]]
  {
    var b := p[|p| - 1];
    assert g.Real(b) && Transfer(g, gen, kill, s, b) <= s[b];
    if |p| > 1 {
      var q := p[..|p| - 1];
      assert Carries(g, kill, d, q) by {
        forall i: nat | 0 < i < |q| ensures g.Edge(q[i - 1], q[i]) && d !in kill[q[i]] {
          assert g.Edge(p[i - 1], p[i]) && d !in kill[p[i]];
        }
      }
      CarriedIntoAny(g, gen, kill, s, d, q);
      assert g.Edge(q[|q| - 1], b) && d !in kill[b];
      assert d in In(g, s, b);
    }
  }

  /** What reaches the end of a predecessor and is not killed reaches the end of b. */
  lemma ReachesNext(g: Flow, gen: seq<set<Def>>, kill: seq<set<Def>>, d: Def, a: Block, b: Block)
    requires g.Valid() && |g.preds| == |gen| == |kill| && g.Real(b)
    requires Reaches(g, gen, kill, d, a) && g.Edge(a, b) && d !in kill[b]
    ensures Reaches(g, gen, kill, d, b)
  {
    var p :| Carries(g, kill, d, p) && p[|p| - 1] == a && d in gen[p[0]];
    var q := p + [b];
    assert Carries(g, kill, d, q) by {
      forall i: nat | 0 < i < |q| ensures g.Edge(q[i - 1], q[i]) && d !in kill[q[i]] {
        if i < |p| { assert g.Edge(p[i - 1], p[i]) && d !in kill[p[i]]; }
      }
    }
    assert q[|q| - 1] == b && q[0] == p[0];
  }

  lemma ReachesHere(g: Flow, gen: seq<set<Def>>, kill: seq<set<Def>>, d: Def, b: Block)
    requires g.Valid() && |g.preds| == |gen| == |kill| && g.Real(b) && d in gen[b]
    ensures Reaches(g, gen, kill, d, b)
  {
    assert Carries(g, kill, d, [b]);
  }

  /** The definitions that reach are the least solution of the equations. */
  lemma LeastSolution(g: Flow, gen: seq<set<Def>>, kill: seq<set<Def>>, s: seq<set<Def>>, t: seq<set<Def>>)
    requires g.Valid() && |g.preds| == |s| == |t| == |gen| == |kill| && Solves(g, gen, kill, t)
    requires forall b: Block, d :: g.Real(b) ==> (d in s[b] <==> Reaches(g, gen, kill, d, b))
    ensures forall b: Block :: g.Real(b) ==> s[b] <= t[b]
  {
    forall b: Block, d | g.Real(b) && d in s[b] ensures d in t[b] {
      assert Reaches(g, gen, kill, d, b);
      var p :| Carries(g, kill, d, p) && p[|p| - 1] == b && d in gen[p[0]];
      assert Covers(g, gen, kill, t);
      CarriedIntoAny(g, gen, kill, t, d, p);
    }
  }

  // ---- the iteration ----

  /** No block has more than the equation gives it, and nothing that does not reach. */
  ghost predicate Below(g: Flow, gen: seq<set<Def>>, kill: seq<set<Def>>, s: seq<set<Def>>)
    requires g.Valid() && |g.preds| == |s| == |gen| == |kill|
  {
    forall b: Block :: g.Real(b) ==> s[b] <= Transfer(g, gen, kill, s, b)
  }

  ghost predicate Sound(g: Flow, gen: seq<set<Def>>, kill: seq<set<Def>>, s: seq<set<Def>>)
    requires g.Valid() && |g.preds| == |s| == |gen| == |kill|
  {
    forall b: Block, d :: g.Real(b) && d in s[b] ==> Reaches(g, gen, kill, d, b)
  }

  /** One step of the iteration. */
  lemma OneBlock(g: Flow, gen: seq<set<Def>>, kill: seq<set<Def>>, s: seq<set<Def>>, i: Block)
    requires g.Valid() && |g.preds| == |s| == |gen| == |kill| && g.Real(i)
    requires Below(g, gen, kill, s) && Sound(g, gen, kill, s)
    ensures var t := s[i := Transfer(g, gen, kill, s, i)];
      Below(g, gen, kill, t) && Sound(g, gen, kill, t)
  {
    var t := s[i := Transfer(g, gen, kill, s, i)];
    assert forall b: nat :: b < |s| ==> s[b] <= t[b] by {
      assert s[i] <= Transfer(g, gen, kill, s, i);
    }
    forall b: Block | g.Real(b) ensures t[b] <= Transfer(g, gen, kill, t, b) {
      assert s[b] <= Transfer(g, gen, kill, s, b);
      InGrows(g, s, t, b);
      InGrows(g, s, t, i);
    }
    forall b: Block, d | g.Real(b) && d in t[b] ensures Reaches(g, gen, kill, d, b) {
      if b == i && d in gen[i] {
        ReachesHere(g, gen, kill, d, i);
      } else if b == i {
        var p :| p in g.preds[i] && p != ENTRY_BLOCK && d in s[p];
        ReachesNext(g, gen, kill, d, p, i);
      }
    }
  }

  lemma InGrows(g: Flow, s: seq<set<Def>>, t: seq<set<Def>>, b: Block)
    requires g.Valid() && b < |g.preds| == |s| == |t| && forall k: nat :: k < |s| ==> s[k] <= t[k]
    ensures In(g, s, b) <= In(g, t, b)
  {}

  ghost function Numbers(n: nat): (s: set<nat>)
    ensures forall d: nat :: d in s <==> d < n
  {
    if n == 0 then {} else Numbers(n - 1) + {n - 1}
  }

  /** How many definitions of u the blocks from b on do not have. */
  ghost function Missing(s: seq<set<Def>>, u: set<Def>, b: nat): nat
    decreases |s| - b
  {
    if b >= |s| then 0 else |u - s[b]| + Missing(s, u, b + 1)
  }

  lemma {:induction false} MissingLess(s: seq<set<Def>>, u: set<Def>, b: nat, i: nat, x: set<Def>)
    requires i < |s| && s[i] <= x <= u
    ensures Missing(s[i := x], u, b) <= Missing(s, u, b)
    ensures s[i] != x && b <= i ==> Missing(s[i := x], u, b) < Missing(s, u, b)
    decreases |s| - b
  {
    if b < |s| {
      MissingLess(s, u, b + 1, i, x);
      if b == i {
        Fewer(u - x, u - s[i]);
        assert s[i] != x ==> u - x != u - s[i];
      }
    }
  }

  lemma {:induction false} Fewer(a: set<Def>, b: set<Def>)
    requires a <= b
    ensures |a| <= |b| && (a != b ==> |a| < |b|)
  {
    assert b == a + (b - a);
  }

  ghost predicate Within(g: Flow, s: seq<set<Def>>, u: set<Def>)
    requires g.Valid() && |g.preds| == |s|
  {
    forall b: Block :: g.Real(b) ==> s[b] <= u
  }

  ghost predicate SolvedTo(g: Flow, gen: seq<set<Def>>, kill: seq<set<Def>>, s: seq<set<Def>>, i: nat)
    requires g.Valid() && |g.preds| == |s| == |gen| == |kill|
  {
    forall b: Block :: g.Real(b) && b < i ==> s[b] == Transfer(g, gen, kill, s, b)
  }

  lemma SolvedMore(g: Flow, gen: seq<set<Def>>, kill: seq<set<Def>>, s: seq<set<Def>>, i: nat)
    requires g.Valid() && |g.preds| == |s| == |gen| == |kill| && i < |s|
    ensures SolvedTo(g, gen, kill, s, i) && s[i] == Transfer(g, gen, kill, s, i) ==> SolvedTo(g, gen, kill, s, i + 1)
    ensures SolvedTo(g, gen, kill, s, NUM_FIXED_BLOCKS)
  {}

  lemma SolvedAll(g: Flow, gen: seq<set<Def>>, kill: seq<set<Def>>, s: seq<set<Def>>)
    requires g.Valid() && |g.preds| == |s| == |gen| == |kill|
    ensures SolvedTo(g, gen, kill, s, |s|) ==> Solves(g, gen, kill, s)
    ensures SolvedTo(g, gen, kill, s, NUM_FIXED_BLOCKS)
  {}

  lemma TransferIs(g: Flow, gen: seq<set<Def>>, kill: seq<set<Def>>, s: seq<set<Def>>, i: Block, next: set<Def>)
    requires g.Valid() && |g.preds| == |s| == |gen| == |kill| && i < |s|
    requires next == gen[i] + (In(g, s, i) - kill[i]) && g.Real(i) && Below(g, gen, kill, s)
    ensures next == Transfer(g, gen, kill, s, i) && s[i] <= next
  {}

  lemma StaysWithin(g: Flow, gen: seq<set<Def>>, kill: seq<set<Def>>, s: seq<set<Def>>, i: Block, u: set<Def>)
    requires g.Valid() && |g.preds| == |s| == |gen| == |kill| && g.Real(i) && Within(g, s, u)
    requires forall b: nat :: b < |gen| ==> gen[b] <= u
    ensures Transfer(g, gen, kill, s, i) <= u && Within(g, s[i := Transfer(g, gen, kill, s, i)], u)
  {
    assert In(g, s, i) <= u by {
      forall p, d | p in g.preds[i] && p != ENTRY_BLOCK && d in s[p] ensures d in u {
        assert g.Real(p) && s[p] <= u;
      }
    }
  }

  lemma Start(g: Flow, gen: seq<set<Def>>, kill: seq<set<Def>>, s: seq<set<Def>>, maxUid: nat)
    requires g.Valid() && |g.preds| == |s| == |gen| == |kill|
    requires forall b: nat, d :: b < |gen| && d in gen[b] ==> d < maxUid
    requires forall b: nat :: NUM_FIXED_BLOCKS <= b < |s| ==> s[b] == gen[b]
    ensures Below(g, gen, kill, s) && Sound(g, gen, kill, s) && Within(g, s, Numbers(maxUid))
    ensures forall b: nat :: b < |gen| ==> gen[b] <= Numbers(maxUid)
  {
    forall b: Block, d | g.Real(b) && d in s[b] ensures Reaches(g, gen, kill, d, b) {
      ReachesHere(g, gen, kill, d, b);
    }
  }

  /** A sound solution has exactly what reaches. */
  lemma Exact(g: Flow, gen: seq<set<Def>>, kill: seq<set<Def>>, s: seq<set<Def>>)
    requires g.Valid() && |g.preds| == |s| == |gen| == |kill| && Sound(g, gen, kill, s) && Solves(g, gen, kill, s)
    ensures forall b: Block, d :: g.Real(b) ==> (d in s[b] <==> Reaches(g, gen, kill, d, b))
  {
    forall b: Block, d | g.Real(b) && Reaches(g, gen, kill, d, b) ensures d in s[b] {
      var p :| Carries(g, kill, d, p) && p[|p| - 1] == b && d in gen[p[0]];
      assert Covers(g, gen, kill, s);
      CarriedIntoAny(g, gen, kill, s, d, p);
    }
  }

  /** compute_out: iterates until nothing changes; definitions are numbered below max_uid. */
  method ComputeOut(g: Flow, out: array<set<Def>>, gen: seq<set<Def>>, kill: seq<set<Def>>, maxUid: nat)
    requires g.Valid() && |g.preds| == out.Length == |gen| == |kill|
    requires forall b: nat, d :: b < |gen| && d in gen[b] ==> d < maxUid
    modifies out
    ensures Solves(g, gen, kill, out[..])
    ensures forall b: Block, d :: g.Real(b) ==> (d in out[b] <==> Reaches(g, gen, kill, d, b))
  {
    hide Below, Sound, Solves, Transfer, In, Reaches, Missing;
    ghost var u := Numbers(maxUid);
    var i := NUM_FIXED_BLOCKS;
    while i < |g.preds|
      invariant NUM_FIXED_BLOCKS <= i <= |g.preds|
      invariant forall b: nat :: NUM_FIXED_BLOCKS <= b < i ==> out[b] == gen[b]
    {
      out[i] := gen[i];
      i := i + 1;
    }
    Start(g, gen, kill, out[..], maxUid);
    var changed := true;
    while changed
      invariant Below(g, gen, kill, out[..]) && Sound(g, gen, kill, out[..]) && Within(g, out[..], u)
      invariant !changed ==> Solves(g, gen, kill, out[..])
      decreases Missing(out[..], u, NUM_FIXED_BLOCKS), changed
    {
      changed := false;
      ghost var before := out[..];
      i := NUM_FIXED_BLOCKS;
      while i < |g.preds|
        invariant NUM_FIXED_BLOCKS <= i <= |g.preds|
        invariant Below(g, gen, kill, out[..]) && Sound(g, gen, kill, out[..]) && Within(g, out[..], u)
        invariant !changed ==> out[..] == before && SolvedTo(g, gen, kill, before, i)
        invariant changed ==> Missing(out[..], u, NUM_FIXED_BLOCKS) < Missing(before, u, NUM_FIXED_BLOCKS)
      {
        ghost var s := out[..];
        var bbIn := UnionOfPreds(g, out, i);
        var next := gen[i] + (bbIn - kill[i]);
        TransferIs(g, gen, kill, s, i, next);
        OneBlock(g, gen, kill, s, i);
        StaysWithin(g, gen, kill, s, i, u);
        MissingLess(s, u, NUM_FIXED_BLOCKS, i, next);
        SolvedMore(g, gen, kill, s, i);
        if out[i] != next { changed := true; }
        out[i] := next;
        assert out[..] == s[i := next];
        i := i + 1;
      }
      SolvedAll(g, gen, kill, before);
    }
    Exact(g, gen, kill, out[..]);
  }

  // ---- augment_live_range ----

  /** Every path from the entry to b goes through a. */
  ghost predicate Dominates(g: Flow, a: Block, b: Block) {
    forall p :: g.Path(p) && p[0] == ENTRY_BLOCK && p[|p| - 1] == b ==> a in p
  }

  /** The blocks of r other than the exception have all their predecessors in r. */
  ghost predicate ClosedExcept(g: Flow, r: set<Block>, exception: Block) {
    forall b: Block, a: Block :: b in r && b != exception && g.Edge(a, b) ==> a in r
  }

  /** A target can be reached from b without entering stop. */
  ghost predicate LeadsTo(g: Flow, stop: set<Block>, targets: set<Block>, b: Block) {
    exists p :: g.Path(p) && p[0] == b && p[|p| - 1] in targets && forall i: nat :: i < |p| ==> p[i] !in stop
  }

  function Elements(l: seq<Block>): set<Block> {
    set a | a in l
  }

  /** r is stop and the blocks from which a target can be reached outside it. */
  ghost predicate Grown(g: Flow, stop: set<Block>, targets: set<Block>, r: set<Block>) {
    forall b: Block :: b in r <==> b in stop || LeadsTo(g, stop, targets, b)
  }

  lemma LeadsHere(g: Flow, stop: set<Block>, targets: set<Block>, b: Block)
    requires b in targets && b !in stop && b < |g.preds|
    ensures LeadsTo(g, stop, targets, b)
  {
    assert g.Path([b]);
  }

  lemma LeadsBefore(g: Flow, stop: set<Block>, targets: set<Block>, a: Block, b: Block)
    requires g.Valid() && LeadsTo(g, stop, targets, b) && g.Edge(a, b) && a !in stop
    ensures LeadsTo(g, stop, targets, a)
  {
    var p :| g.Path(p) && p[0] == b && p[|p| - 1] in targets && forall i: nat :: i < |p| ==> p[i] !in stop;
    var q := [a] + p;
    assert a < |g.preds| by {
      var k: nat :| k < |g.preds[b]| && g.preds[b][k] == a;
    }
    assert g.Path(q) by {
      forall i: nat | 0 < i < |q| ensures g.Edge(q[i - 1], q[i]) {
        if i > 1 { assert g.Edge(p[i - 2], p[i - 1]); }
      }
    }
    assert q[|q| - 1] == p[|p| - 1];
  }

  /** The growing of the range is complete when nothing is left to visit. */
  lemma {:induction false} LeadsInside(g: Flow, stop: set<Block>, targets: set<Block>, r: set<Block>, p: seq<Block>)
    requires g.Path(p) && p[|p| - 1] in targets && forall i: nat :: i < |p| ==> p[i] !in stop
    requires forall b: Block :: b in targets ==> b in r
    requires forall b: Block, a: Block :: b in r && b !in stop && g.Edge(a, b) ==> a in r
    ensures p[0] in r
  {
    if |p| > 1 {
      var q := p[1..];
      assert g.Path(q) by {
        assert g.Edge(p[0], p[1]);
        forall i: nat | 0 < i < |q| ensures g.Edge(q[i - 1], q[i]) {
          assert g.Edge(p[i], p[i + 1]);
        }
      }
      LeadsInside(g, stop, targets, r, q);
      assert g.Edge(p[0], p[1]);
    }
  }

  lemma {:induction false} DominatesBefore(g: Flow, h: Block, a: Block, b: Block)
    requires g.Valid() && Dominates(g, h, b) && g.Edge(a, b) && b != h
    ensures Dominates(g, h, a)
  {
    forall p | g.Path(p) && p[0] == ENTRY_BLOCK && p[|p| - 1] == a ensures h in p {
      var q := p + [b];
      assert g.Path(q) by {
        forall i: nat | 0 < i < |q| ensures g.Edge(q[i - 1], q[i]) {
          if i < |p| { assert g.Edge(p[i - 1], p[i]); }
        }
      }
      assert h in q;
    }
  }

  /** Domination is transitive. */
  lemma DominatesAll(g: Flow, h: Block, a: Block, b: Block)
    requires Dominates(g, h, a) && Dominates(g, a, b)
    ensures Dominates(g, h, b)
  {
    forall p | g.Path(p) && p[0] == ENTRY_BLOCK && p[|p| - 1] == b ensures h in p {
      assert a in p;
      var k: nat :| k < |p| && p[k] == a;
      var q := p[..k + 1];
      assert g.Path(q) by {
        forall i: nat | 0 < i < |q| ensures g.Edge(q[i - 1], q[i]) { assert g.Edge(p[i - 1], p[i]); }
      }
      assert h in q;
    }
  }

  /** Going back outside a set that has h, from blocks h dominates, stays among the blocks h dominates. */
  lemma {:induction false} DominatesBack(g: Flow, h: Block, stop: set<Block>, p: seq<Block>)
    requires g.Valid() && g.Path(p) && h in stop && Dominates(g, h, p[|p| - 1]) && forall i: nat :: i < |p| ==> p[i] !in stop
    ensures Dominates(g, h, p[0])
    decreases |p|
  {
    if |p| > 1 {
      var q := p[..|p| - 1];
      assert g.Path(q) by {
        forall i: nat | 0 < i < |q| ensures g.Edge(q[i - 1], q[i]) { assert g.Edge(p[i - 1], p[i]); }
      }
      assert g.Edge(p[|p| - 2], p[|p| - 1]);
      DominatesBefore(g, h, p[|p| - 2], p[|p| - 1]);
      DominatesBack(g, h, stop, q);
    }
  }

  lemma GrownHas(g: Flow, stop: set<Block>, targets: set<Block>, r: set<Block>)
    requires Grown(g, stop, targets, r)
    ensures stop <= r && forall b: Block :: b in targets && b < |g.preds| ==> b in r
  {
    forall b: Block | b in targets && b < |g.preds| ensures b in r {
      if b !in stop { LeadsHere(g, stop, targets, b); }
    }
  }

  /** Grown from a range that is closed but at h and at the targets, the range is closed but at h. */
  lemma GrownCloses(g: Flow, h: Block, stop: set<Block>, targets: set<Block>, r: set<Block>)
    requires g.Valid() && Grown(g, stop, targets, r)
    requires forall b: Block, a: Block :: b in stop && b != h && g.Edge(a, b) ==> a in stop || a in targets
    ensures ClosedExcept(g, r, h)
  {
    GrownHas(g, stop, targets, r);
    forall b: Block, a: Block | b in r && b != h && g.Edge(a, b) ensures a in r {
      if b in stop {
        assert a < |g.preds| by {
          var k: nat :| k < |g.preds[b]| && g.preds[b][k] == a;
        }
      } else if a !in stop {
        LeadsBefore(g, stop, targets, a, b);
      }
    }
  }

  /** If h is in the range it grows from and dominates the targets, it dominates all that is added. */
  lemma GrownUnder(g: Flow, h: Block, stop: set<Block>, targets: set<Block>, r: set<Block>)
    requires g.Valid() && Grown(g, stop, targets, r) && h in stop && forall b: Block :: b in targets ==> Dominates(g, h, b)
    ensures forall b: Block :: b in r - stop ==> Dominates(g, h, b)
  {
    forall b: Block | b in r - stop ensures Dominates(g, h, b) {
      assert LeadsTo(g, stop, targets, b);
      var p :| g.Path(p) && p[0] == b && p[|p| - 1] in targets && forall i: nat :: i < |p| ==> p[i] !in stop;
      DominatesBack(g, h, stop, p);
    }
  }

  /** head dominates the new block: the range grows down from head. */
  lemma GrownDown(g: Flow, head: Block, newBlock: Block, range: set<Block>, r: set<Block>)
    requires g.Valid() && newBlock < |g.preds| && head in range && Dominates(g, head, newBlock) && Grown(g, range, {newBlock}, r)
    ensures newBlock in r && range <= r && (ClosedExcept(g, range, head) ==> ClosedExcept(g, r, head))
    ensures forall b: Block :: b in r - range ==> Dominates(g, head, b)
  {
    hide Dominates, LeadsTo;
    GrownHas(g, range, {newBlock}, r);
    GrownUnder(g, head, range, {newBlock}, r);
    if ClosedExcept(g, range, head) { GrownCloses(g, head, range, {newBlock}, r); }
  }

  /** The new block dominates head: the range grows up to it. */
  lemma GrownUp(g: Flow, head: Block, newBlock: Block, range: set<Block>, r: set<Block>)
    requires g.Valid() && head < |g.preds| && newBlock != head && head in range && Dominates(g, newBlock, head)
    requires Grown(g, range + {newBlock}, Elements(g.preds[head]), r)
    ensures newBlock in r && range <= r && (ClosedExcept(g, range, head) ==> ClosedExcept(g, r, newBlock))
    ensures forall b: Block :: b in r - range ==> Dominates(g, newBlock, b)
  {
    hide Dominates, LeadsTo;
    var stop, targets := range + {newBlock}, Elements(g.preds[head]);
    GrownHas(g, stop, targets, r);
    forall b: Block | b in targets ensures Dominates(g, newBlock, b) { DominatesBefore(g, newBlock, b, head); }
    GrownUnder(g, newBlock, stop, targets, r);
    DominatesItself(g, newBlock);
    if ClosedExcept(g, range, head) { GrownCloses(g, newBlock, stop, targets, r); }
  }

  lemma DominatesItself(g: Flow, a: Block)
    ensures Dominates(g, a, a)
  {}

  /** The registers live in, or at the end of, the blocks of s. */
  function LiveIn(live: seq<set<Reg>>, liveAtEnd: seq<set<Reg>>, s: set<Block>): set<Reg>
    requires |live| == |liveAtEnd|
  {
    set b, r | b in s && b < |live| && r in live[b] + liveAtEnd[b] :: r
  }

  lemma LiveInMore(live: seq<set<Reg>>, liveAtEnd: seq<set<Reg>>, s: set<Block>, b: Block)
    requires |live| == |liveAtEnd| && b < |live|
    ensures LiveIn(live, liveAtEnd, s + {b}) == LiveIn(live, liveAtEnd, s) + live[b] + liveAtEnd[b]
  {
    var t := LiveIn(live, liveAtEnd, s + {b});
    forall r | r in LiveIn(live, liveAtEnd, s) + live[b] + liveAtEnd[b] ensures r in t {
      if r in live[b] + liveAtEnd[b] {
        assert b in s + {b};
      } else {
        var a :| a in s && a < |live| && r in live[a] + liveAtEnd[a];
        assert a in s + {b};
      }
    }
  }

  /** The range under way: what has been added leads to a target, and nothing that leads there has been forgotten. */
  ghost predicate Growing(g: Flow, stop: set<Block>, targets: set<Block>, r: set<Block>, worklist: seq<Block>) {
    stop <= r && (forall b: Block :: b in r && b !in stop ==> LeadsTo(g, stop, targets, b))
    && (forall w :: w in worklist ==> w < |g.preds| && (w in stop || LeadsTo(g, stop, targets, w)))
    && (forall b: Block :: b in targets ==> b in r || b in worklist)
    && (forall b: Block, a: Block :: b in r && b !in stop && g.Edge(a, b) ==> a in r || a in worklist)
  }

  lemma GrowingStarts(g: Flow, stop: set<Block>, worklist: seq<Block>)
    requires forall w :: w in worklist ==> w < |g.preds|
    ensures Growing(g, stop, Elements(worklist), stop, worklist)
  {
    var targets := Elements(worklist);
    forall w | w in worklist && w !in stop ensures LeadsTo(g, stop, targets, w) {
      LeadsHere(g, stop, targets, w);
    }
  }

  lemma LastOff(l: seq<Block>)
    requires l != []
    ensures forall w :: w in l <==> w in l[..|l| - 1] || w == l[|l| - 1]
  {
    assert l == l[..|l| - 1] + [l[|l| - 1]];
  }

  lemma GrowingSkips(g: Flow, stop: set<Block>, targets: set<Block>, r: set<Block>, worklist: seq<Block>)
    requires Growing(g, stop, targets, r, worklist) && worklist != [] && worklist[|worklist| - 1] in r
    ensures Growing(g, stop, targets, r, worklist[..|worklist| - 1])
  {
    hide LeadsTo, Flow.Edge;
    var l := worklist[..|worklist| - 1];
    LastOff(worklist);
    forall w | w in l ensures w < |g.preds| && (w in stop || LeadsTo(g, stop, targets, w)) { assert w in worklist; }
    forall b: Block | b in targets ensures b in r || b in l { assert b in r || b in worklist; }
    forall b: Block, a: Block | b in r && b !in stop && g.Edge(a, b) ensures a in r || a in l { assert a in r || a in worklist; }
  }

  /** A block taken from the worklist joins the range and its predecessors outside go on the worklist. */
  lemma GrowingAdds(g: Flow, stop: set<Block>, targets: set<Block>, r: set<Block>, worklist: seq<Block>, pushed: seq<Block>)
    requires g.Valid() && Growing(g, stop, targets, r, worklist) && worklist != []
    requires worklist[|worklist| - 1] !in r
    requires forall a :: a in pushed ==> g.Edge(a, worklist[|worklist| - 1]) && a !in r
    requires forall a: Block :: g.Edge(a, worklist[|worklist| - 1]) ==> a in r || a == worklist[|worklist| - 1] || a in pushed
    ensures Growing(g, stop, targets, r + {worklist[|worklist| - 1]}, worklist[..|worklist| - 1] + pushed)
  {
    hide LeadsTo, Flow.Edge;
    var bb := worklist[|worklist| - 1];
    var l := worklist[..|worklist| - 1];
    LastOff(worklist);
    assert bb in worklist;
    forall w | w in pushed ensures w < |g.preds| && (w in stop || LeadsTo(g, stop, targets, w)) {
      EdgeInside(g, w, bb);
      if w !in stop { LeadsBefore(g, stop, targets, w, bb); }
    }
    forall w | w in l ensures w < |g.preds| && (w in stop || LeadsTo(g, stop, targets, w)) { assert w in worklist; }
    forall b: Block | b in targets ensures b in r + {bb} || b in l + pushed { assert b in r || b in worklist; }
    forall b: Block, a: Block | b in r + {bb} && b !in stop && g.Edge(a, b) ensures a in r + {bb} || a in l + pushed {
      assert b in r ==> a in r || a in worklist;
    }
  }

  lemma EdgeInside(g: Flow, a: Block, b: Block)
    requires g.Valid() && g.Edge(a, b)
    ensures a < |g.preds|
  {
    var k: nat :| k < |g.preds[b]| && g.preds[b][k] == a;
  }

  lemma GrowingEnds(g: Flow, stop: set<Block>, targets: set<Block>, r: set<Block>)
    requires Growing(g, stop, targets, r, [])
    ensures Grown(g, stop, targets, r)
  {
    forall b: Block | LeadsTo(g, stop, targets, b) ensures b in r {
      var p :| g.Path(p) && p[0] == b && p[|p| - 1] in targets && forall i: nat :: i < |p| ==> p[i] !in stop;
      LeadsInside(g, stop, targets, r, p);
    }
  }

  lemma OnWorklist(g: Flow, stop: set<Block>, targets: set<Block>, r: set<Block>, worklist: seq<Block>)
    requires Growing(g, stop, targets, r, worklist) && worklist != []
    ensures worklist[|worklist| - 1] < |g.preds| && stop <= r
  {
    assert worklist[|worklist| - 1] in worklist;
  }

  class LiveRange {
    /** the bitmap live_range */
    var blocks: set<Block>
    /** what btrs_live_in_range points to */
    var btrs: set<Reg>

    /** Pushes the predecessors of bb that are not in the range. */
    method PushPreds(g: Flow, bb: Block, worklist: seq<Block>) returns (more: seq<Block>, ghost pushed: seq<Block>)
      requires g.Valid() && bb < |g.preds|
      ensures more == worklist + pushed && forall a :: a in pushed ==> g.Edge(a, bb) && a !in blocks
      ensures forall a: Block :: g.Edge(a, bb) ==> a in blocks || a in pushed
    {
      more, pushed := worklist, [];
      var ei := 0;
      while ei < |g.preds[bb]|
        invariant 0 <= ei <= |g.preds[bb]| && more == worklist + pushed
        invariant forall a :: a in pushed ==> a in g.preds[bb] && a !in blocks
        invariant forall k: nat :: k < ei ==> g.preds[bb][k] in blocks || g.preds[bb][k] in pushed
      {
        var pred := g.preds[bb][ei];
        if pred !in blocks {
          more := more + [pred];
          pushed := pushed + [pred];
        }
        ei := ei + 1;
      }
    }

    /** The worklist loop of augment_live_range. */
    method Grow(g: Flow, live: seq<set<Reg>>, liveAtEnd: seq<set<Reg>>, start: seq<Block>)
      requires g.Valid() && |live| == |liveAtEnd| == |g.preds| && forall w :: w in start ==> w < |g.preds|
      modifies this
      ensures Grown(g, old(blocks), Elements(start), blocks)
      ensures btrs == old(btrs) + LiveIn(live, liveAtEnd, blocks - old(blocks))
    {
      hide Growing, Grown, LeadsTo, LiveIn;
      ghost var stop, targets := blocks, Elements(start);
      ghost var all := Numbers(|g.preds|);
      var worklist: seq<Block> := start;
      GrowingStarts(g, stop, worklist);
      assert LiveIn(live, liveAtEnd, blocks - stop) == {} by { LiveInNone(live, liveAtEnd); assert blocks - stop == {}; }
      while worklist != []
        invariant Growing(g, stop, targets, blocks, worklist)
        invariant btrs == old(btrs) + LiveIn(live, liveAtEnd, blocks - stop)
        decreases |all - blocks|, |worklist|
      {
        var bb := worklist[|worklist| - 1];
        ghost var r, l := blocks, worklist;
        OnWorklist(g, stop, targets, r, l);
        worklist := worklist[..|worklist| - 1];
        if bb !in blocks {
          blocks := blocks + {bb};
          btrs := btrs + live[bb];
          btrs := btrs + liveAtEnd[bb];
          LiveInMore(live, liveAtEnd, r - stop, bb);
          assert blocks - stop == r - stop + {bb};
          ghost var pushed;
          worklist, pushed := PushPreds(g, bb, worklist);
          GrowingAdds(g, stop, targets, r, l, pushed);
          FewerLeft(all, r, bb);
        } else {
          GrowingSkips(g, stop, targets, r, l);
        }
      }
      GrowingEnds(g, stop, targets, blocks);
    }

    /**
     * augment_live_range: head is in the range. What is added are the blocks from which newBlock, or when that
     * dominates head a predecessor of head, is reached outside the range.
     */
    method AugmentLiveRange(g: Flow, live: seq<set<Reg>>, liveAtEnd: seq<set<Reg>>, dominatedBy: (Block, Block) -> bool,
                            head: Block, newBlock: Block, fullRange: bool)
      requires g.Valid() && |live| == |liveAtEnd| == |g.preds| && head < |g.preds| && newBlock < |g.preds| && head in blocks
      requires forall a: Block, b: Block :: dominatedBy(b, a) <==> Dominates(g, a, b)
      requires Dominates(g, head, newBlock) || Dominates(g, newBlock, head)
      modifies this
      ensures newBlock == head ==> blocks == old(blocks) && btrs == old(btrs) + if fullRange then live[head] else {}
      ensures newBlock != head && Dominates(g, head, newBlock) ==>
        Grown(g, old(blocks), {newBlock}, blocks) && btrs == old(btrs) + LiveIn(live, liveAtEnd, blocks - old(blocks))
      ensures !Dominates(g, head, newBlock) ==>
        Grown(g, old(blocks) + {newBlock}, Elements(g.preds[head]), blocks)
        && btrs == old(btrs) + live[head] + liveAtEnd[newBlock] + (if fullRange then live[newBlock] else {})
                 + LiveIn(live, liveAtEnd, blocks - old(blocks) - {newBlock})
      ensures newBlock in blocks && old(blocks) <= blocks
      ensures ClosedExcept(g, old(blocks), head) ==> ClosedExcept(g, blocks, if Dominates(g, head, newBlock) then head else newBlock)
      ensures forall b: Block :: b in blocks - old(blocks) ==> Dominates(g, if Dominates(g, head, newBlock) then head else newBlock, b)
      ensures (forall b: Block :: b in old(blocks) ==> Dominates(g, head, b)) ==>
        forall b: Block :: b in blocks ==> Dominates(g, if Dominates(g, head, newBlock) then head else newBlock, b)
    {
      hide Grown, LiveIn, Dominates, ClosedExcept;
      var worklist: seq<Block> := [];
      ghost var r0 := blocks;
      if dominatedBy(newBlock, head) {
        if newBlock == head {
          if fullRange { btrs := btrs + live[newBlock]; }
          return;
        }
        worklist := worklist + [newBlock];
      } else {
        btrs := btrs + live[head];
        blocks := blocks + {newBlock};
        btrs := btrs + liveAtEnd[newBlock];
        if fullRange { btrs := btrs + live[newBlock]; }
        var ei := 0;
        while ei < |g.preds[head]|
          invariant 0 <= ei <= |g.preds[head]| && worklist == g.preds[head][..ei]
        {
          worklist := worklist + [g.preds[head][ei]];
          ei := ei + 1;
        }
      }
      Grow(g, live, liveAtEnd, worklist);
      if dominatedBy(newBlock, head) {
        assert worklist == [newBlock] && Elements([newBlock]) == {newBlock};
        GrownDown(g, head, newBlock, r0, blocks);
      } else {
        assert worklist == g.preds[head];
        GrownUp(g, head, newBlock, r0, blocks);
        assert blocks - old(blocks) - {newBlock} == blocks - (old(blocks) + {newBlock});
      }
      AllDominated(g, head, newBlock, r0, blocks);
    }
  }

  lemma AllDominated(g: Flow, head: Block, newBlock: Block, range: set<Block>, r: set<Block>)
    requires Dominates(g, head, newBlock) || Dominates(g, newBlock, head)
    requires forall b: Block :: b in r - range ==> Dominates(g, if Dominates(g, head, newBlock) then head else newBlock, b)
    ensures (forall b: Block :: b in range ==> Dominates(g, head, b)) ==>
      forall b: Block :: b in r ==> Dominates(g, if Dominates(g, head, newBlock) then head else newBlock, b)
  {
    hide Dominates;
    if forall b: Block :: b in range ==> Dominates(g, head, b) {
      forall b: Block | b in r ensures Dominates(g, if Dominates(g, head, newBlock) then head else newBlock, b) {
        if b in range {
          if !Dominates(g, head, newBlock) { DominatesAll(g, newBlock, head, b); }
        } else {
          assert b in r - range;
        }
      }
    }
  }

  lemma LiveInNone(live: seq<set<Reg>>, liveAtEnd: seq<set<Reg>>)
    requires |live| == |liveAtEnd|
    ensures LiveIn(live, liveAtEnd, {}) == {}
  {}

  lemma FewerLeft(all: set<Block>, r: set<Block>, b: Block)
    requires b in all && b !in r
    ensures |all - (r + {b})| < |all - r|
  {
    assert all - r == all - (r + {b}) + {b};
  }
}
