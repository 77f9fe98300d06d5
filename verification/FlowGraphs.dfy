/** The control flow graph as bb-reorder.c sees it. Blocks and edges are named by their numbers. */
module FlowGraphs {
  const ENTRY: nat := 0
  const EXIT: nat := 1
  const REG_BR_PROB_BASE := 10000
  const BB_FREQ_MAX := 10000

  datatype Partition = Unpartitioned | Hot | Cold

  datatype Edge = Edge(src: nat, dest: nat, probability: int, count: int,
                       canFallthru: bool, complex: bool, crossing: bool, dfsBack: bool)

  /** What the pass asks about a block itself. `never` is probably_never_executed_bb_p, `hot` maybe_hot_bb_p,
      `size` the sum of its minimal insn lengths, `prev` and `next` its neighbours before the pass. */
  datatype BlockInfo = BlockInfo(frequency: int, count: int, partition: Partition, never: bool, hot: bool,
                                 endsInCall: bool, condJump: bool, crossingNote: bool, canDuplicate: bool,
                                 size: int, prev: int, next: int)

  datatype Graph = Graph(edges: seq<Edge>, succs: seq<seq<nat>>, preds: seq<seq<nat>>, info: seq<BlockInfo>)

  predicate Indexed(g: Graph) {
    && |g.succs| == |g.preds| == |g.info| >= 2
    && (forall e :: 0 <= e < |g.edges| ==> g.edges[e].src < |g.info| && ENTRY != g.edges[e].dest < |g.info|)
  }

  predicate SuccsOk(g: Graph) {
    forall b, i :: 0 <= b < |g.succs| && 0 <= i < |g.succs[b]| ==>
      g.succs[b][i] < |g.edges| && g.edges[g.succs[b][i]].src == b
  }

  predicate PredsOk(g: Graph) {
    forall b, i :: 0 <= b < |g.preds| && 0 <= i < |g.preds[b]| ==>
      g.preds[b][i] < |g.edges| && g.edges[g.preds[b][i]].dest == b
  }

  /** Edges are marked as crossing exactly between partitions. */
  predicate CrossingOk(g: Graph)
    requires Indexed(g)
  {
    forall e :: 0 <= e < |g.edges| && g.edges[e].src != ENTRY && g.edges[e].dest != EXIT ==>
      (g.edges[e].crossing <==> g.info[g.edges[e].src].partition != g.info[g.edges[e].dest].partition)
  }

  predicate Valid(g: Graph) {
    Indexed(g) && SuccsOk(g) && PredsOk(g) && CrossingOk(g)
    && !g.info[ENTRY].canDuplicate && !g.info[EXIT].canDuplicate && g.succs[EXIT] == []
  }

  /** e is one of the edges that leave b. */
  predicate Leaves(g: Graph, b: nat, e: nat) {
    b < |g.succs| && e in g.succs[b]
  }

  lemma EdgeOf(g: Graph, b: nat, i: nat)
    requires Valid(g) && b < |g.succs| && i < |g.succs[b]|
    ensures var e := g.succs[b][i];
      e < |g.edges| && g.edges[e].src == b && ENTRY != g.edges[e].dest < |g.info| == |g.succs| && Leaves(g, b, e)
  {}

  lemma PredOf(g: Graph, b: nat, i: nat)
    requires Valid(g) && b < |g.preds| && i < |g.preds[b]|
    ensures var e := g.preds[b][i];
      e < |g.edges| && g.edges[e].dest == b && g.edges[e].src < |g.info| == |g.succs|
  {}

  /** d is a successor of b. */
  ghost predicate Flows(g: Graph, b: nat, d: nat) {
    b < |g.succs| && exists i :: 0 <= i < |g.succs[b]| && FlowsBy(g, b, i, d)
  }

  predicate FlowsBy(g: Graph, b: nat, i: nat, d: nat)
    requires b < |g.succs| && i < |g.succs[b]|
  {
    g.succs[b][i] < |g.edges| && g.edges[g.succs[b][i]].dest == d
  }

  lemma LeavesFlows(g: Graph, b: nat, e: nat)
    requires Valid(g) && Leaves(g, b, e)
    ensures e < |g.edges| && g.edges[e].src == b && g.edges[e].dest < |g.info| == |g.succs|
    ensures Flows(g, b, g.edges[e].dest)
  {
    var i :| 0 <= i < |g.succs[b]| && g.succs[b][i] == e;
    assert FlowsBy(g, b, i, g.edges[e].dest);
  }

  /** C division, which truncates. */
  function Quot(a: int, b: int): int
    requires b != 0
  {
    if a >= 0 then a / b else -(-a / b)
  }

  /** EDGE_FREQUENCY */
  function EdgeFrequency(g: Graph, e: nat): int
    requires Indexed(g) && e < |g.edges|
  {
    Quot(g.info[g.edges[e].src].frequency * g.edges[e].probability + REG_BR_PROB_BASE / 2, REG_BR_PROB_BASE)
  }

  predicate SingleSucc(g: Graph, b: nat)
    requires b < |g.succs|
  {
    |g.succs[b]| == 1
  }

  predicate SinglePred(g: Graph, b: nat)
    requires b < |g.preds|
  {
    |g.preds[b]| == 1
  }

  // ---- redirecting an edge and duplicating a block ----

  /** A list of edges without e. (The source fills the gap with the last edge; the order is not modelled.) */
  function Without(v: seq<nat>, e: nat): (r: seq<nat>)
    ensures forall x :: x in r <==> x in v && x != e
  {
    if v == [] then [] else (if v[0] == e then [] else [v[0]]) + Without(v[1..], e)
  }

  /** redirect_edge_succ */
  function Redirected(g: Graph, e: nat, d: nat): Graph
    requires Indexed(g) && e < |g.edges| && d < |g.info|
  {
    var was := g.edges[e].dest;
    var preds := g.preds[was := Without(g.preds[was], e)];
    g.(edges := g.edges[e := g.edges[e].(dest := d)], preds := preds[d := preds[d] + [e]])
  }

  /** A new edge at the end of both lists. */
  function WithEdge(g: Graph, e: Edge): Graph
    requires Indexed(g) && e.src < |g.info| && e.dest < |g.info|
  {
    var n := |g.edges|;
    g.(edges := g.edges + [e],
       succs := g.succs[e.src := g.succs[e.src] + [n]], preds := g.preds[e.dest := g.preds[e.dest] + [n]])
  }

  function WithBlock(g: Graph, i: BlockInfo): Graph {
    g.(succs := g.succs + [[]], preds := g.preds + [[]], info := g.info + [i])
  }

  lemma RedirectedValid(g: Graph, e: nat, d: nat)
    requires Valid(g) && e < |g.edges| && ENTRY != d < |g.info|
    requires g.edges[e].src != ENTRY && d != EXIT ==>
               (g.edges[e].crossing <==> g.info[g.edges[e].src].partition != g.info[d].partition)
    ensures Valid(Redirected(g, e, d))
  {
    var h := Redirected(g, e, d);
    forall b, i | 0 <= b < |h.preds| && 0 <= i < |h.preds[b]|
      ensures h.preds[b][i] < |h.edges| && h.edges[h.preds[b][i]].dest == b
    {
      var x := h.preds[b][i];
      assert x in h.preds[b];
      assert x in g.preds[b] || (b == d && x == e);
    }
  }

  lemma WithEdgeValid(g: Graph, e: Edge)
    requires Valid(g) && e.src < |g.info| && ENTRY != e.dest < |g.info| && e.src != EXIT
    requires e.src != ENTRY && e.dest != EXIT ==>
               (e.crossing <==> g.info[e.src].partition != g.info[e.dest].partition)
    ensures Valid(WithEdge(g, e))
  {}

  /** e and f are alike in what decides whether to follow them. */
  predicate Alike(e: Edge, f: Edge) {
    && e.probability == f.probability && e.canFallthru == f.canFallthru && e.complex == f.complex && e.crossing == f.crossing
    && e.dfsBack == f.dfsBack
  }

  /** h is g with block `old` duplicated as a new last block, to which the edge e leads now. The profile may differ. */
  ghost predicate Duplicated(g: Graph, h: Graph, block: nat, e: nat)
    requires block < |g.succs| && e < |g.edges|
  {
    && |h.succs| == |h.preds| == |h.info| == |g.succs| + 1
    && |g.succs| == |g.info| && block < |g.info|
    && (forall b :: 0 <= b < |g.succs| ==> h.succs[b] == g.succs[b])
    && (forall b :: 0 <= b < |g.info| ==> h.info[b].partition == g.info[b].partition)
    && h.info[|g.info|].partition == g.info[block].partition
    && |h.edges| >= |g.edges| && g.edges[e].dest == block && h.edges[e].dest == |g.succs|
    && (forall x :: 0 <= x < |g.edges| && x != e ==> h.edges[x].dest == g.edges[x].dest)
    && (forall x :: 0 <= x < |g.edges| ==> Alike(h.edges[x], g.edges[x]))
    && |h.succs[|g.succs|]| == |g.succs[block]|
    && (forall i :: 0 <= i < |g.succs[block]| ==>
          && g.succs[block][i] < |g.edges| && h.succs[|g.succs|][i] < |h.edges|
          && h.edges[h.succs[|g.succs|][i]].dest == g.edges[g.succs[block][i]].dest
          && Alike(h.edges[h.succs[|g.succs|][i]], g.edges[g.succs[block][i]]))
  }

  /** Blocks keep their partition and their place among the edges' ends; only the profile and the order differ. */
  ghost predicate SameShape(g: Graph, h: Graph) {
    && |h.info| == |g.info| && |h.edges| == |g.edges| && h.succs == g.succs && h.preds == g.preds
    && (forall b :: 0 <= b < |g.info| ==>
          h.info[b].partition == g.info[b].partition && h.info[b].canDuplicate == g.info[b].canDuplicate)
    && (forall e :: 0 <= e < |g.edges| ==>
          && h.edges[e].src == g.edges[e].src && h.edges[e].dest == g.edges[e].dest
          && Alike(h.edges[e], g.edges[e]))
  }

  lemma SameShapeValid(g: Graph, h: Graph)
    requires Valid(g) && SameShape(g, h)
    ensures Valid(h)
  {}

  /** The first i outgoing edges of a block have been copied to block n. */
  ghost predicate Copying(was: Graph, g: Graph, block: nat, n: nat, i: nat) {
    && Valid(g) && Valid(was) && g.info == was.info && |g.info| == n + 1 && block < n && i <= |was.succs[block]|
    && |g.succs| == |was.succs| == n + 1
    && (forall b :: 0 <= b < n ==> g.succs[b] == was.succs[b])
    && |g.edges| >= |was.edges|
    && (forall x :: 0 <= x < |was.edges| ==>
          g.edges[x].dest == was.edges[x].dest && g.edges[x].src == was.edges[x].src && Alike(g.edges[x], was.edges[x]))
    && |g.succs[n]| == i
    && (forall k :: 0 <= k < i ==>
          g.succs[block][k] < |was.edges| && g.succs[n][k] < |g.edges| &&
          g.edges[g.succs[n][k]].dest == was.edges[g.succs[block][k]].dest
          && Alike(g.edges[g.succs[n][k]], was.edges[g.succs[block][k]]))
  }

  lemma CopyingShape(was: Graph, g: Graph, block: nat, n: nat, i: nat)
    requires Copying(was, g, block, n, i)
    ensures Valid(g) && |g.info| == |g.succs| == n + 1 && block < n && i <= |g.succs[block]| && g.info == was.info
    ensures Indexed(g) && |was.edges| <= |g.edges|
    ensures forall k :: 0 <= k < |g.succs[block]| ==> g.succs[block][k] < |g.edges|
  {}

  lemma CopyStep(was: Graph, g: Graph, block: nat, n: nat, i: nat, e: Edge)
    requires Copying(was, g, block, n, i) && i < |was.succs[block]| && block != EXIT && block != ENTRY
    requires was.info[n].partition == was.info[block].partition
    requires g.succs[block][i] < |g.edges| && e.src == n && n != EXIT
    requires e.dest == g.edges[g.succs[block][i]].dest && Alike(e, g.edges[g.succs[block][i]])
    ensures Copying(was, WithEdge(g, e), block, n, i + 1)
  {
    EdgeOf(g, block, i);
    WithEdgeValid(g, e);
    hide SuccsOk, PredsOk;
  }

  lemma CopyProfile(was: Graph, g: Graph, h: Graph, block: nat, n: nat, i: nat)
    requires Copying(was, g, block, n, i) && SameShape(g, h) && h.info == g.info
    ensures Copying(was, h, block, n, i)
  {
    SameShapeValid(g, h);
    hide Valid;
  }

  lemma ValidShape(g: Graph)
    requires Valid(g)
    ensures Indexed(g)
  {}

  /** Changing frequencies and counts of blocks only. */
  lemma SameShapeKept(g: Graph, h: Graph)
    requires |h.info| == |g.info| && h == g.(info := h.info)
    requires forall b :: 0 <= b < |g.info| ==>
               h.info[b].partition == g.info[b].partition && h.info[b].canDuplicate == g.info[b].canDuplicate
    ensures SameShape(g, h)
  {}

  lemma ValidCrossing(g: Graph, e: nat)
    requires Valid(g) && e < |g.edges|
    ensures g.edges[e].src != ENTRY && g.edges[e].dest != EXIT ==>
              (g.edges[e].crossing <==> g.info[g.edges[e].src].partition != g.info[g.edges[e].dest].partition)
  {}

  /** h is g with block duplicated as a new last block that nothing leads to yet. */
  ghost predicate Twin(g: Graph, h: Graph, block: nat) {
    && |g.succs| == |g.preds| == |g.info| && block < |g.info|
    && |h.succs| == |h.preds| == |h.info| == |g.succs| + 1
    && (forall b :: 0 <= b < |g.succs| ==> h.succs[b] == g.succs[b])
    && (forall b :: 0 <= b < |g.info| ==> h.info[b].partition == g.info[b].partition)
    && h.info[|g.info|].partition == g.info[block].partition
    && |h.edges| >= |g.edges|
    && (forall x :: 0 <= x < |g.edges| ==>
          h.edges[x].dest == g.edges[x].dest && h.edges[x].src == g.edges[x].src && Alike(h.edges[x], g.edges[x]))
    && |h.succs[|g.succs|]| == |g.succs[block]|
    && (forall i :: 0 <= i < |g.succs[block]| ==>
          && g.succs[block][i] < |g.edges| && h.succs[|g.succs|][i] < |h.edges|
          && h.edges[h.succs[|g.succs|][i]].dest == g.edges[g.succs[block][i]].dest
          && Alike(h.edges[h.succs[|g.succs|][i]], g.edges[g.succs[block][i]]))
  }

  lemma TwinMade(g: Graph, m: Graph, h: Graph, block: nat, n: nat, i: BlockInfo)
    requires Valid(g) && block < |g.info| && n == |g.info| && i.partition == g.info[block].partition
    requires SameShape(WithBlock(g, i), m) && Copying(m, h, block, n, |m.succs[block]|)
    ensures Twin(g, h, block) && Valid(h)
  {}

  lemma TwinProfile(g: Graph, h: Graph, k: Graph, block: nat)
    requires Twin(g, h, block) && SameShape(h, k)
    ensures Twin(g, k, block)
  {}

  lemma TwinRedirected(g: Graph, h: Graph, block: nat, e: nat)
    requires Valid(g) && Valid(h) && Twin(g, h, block) && e < |g.edges| && g.edges[e].dest == block && block != EXIT
    ensures Valid(Redirected(h, e, |g.info|)) && Duplicated(g, Redirected(h, e, |g.info|), block, e)
  {
    RedirectedValid(h, e, |g.info|);
    hide Valid;
    TwinNewEdges(g, h, block, e);
  }

  /** The edges of the new block are not those of the old ones. */
  lemma TwinNewEdges(g: Graph, h: Graph, block: nat, e: nat)
    requires Valid(g) && Valid(h) && Twin(g, h, block) && e < |g.edges|
    ensures e !in h.succs[|g.info|]
  {}

  lemma TwinShape(g: Graph, h: Graph, block: nat)
    requires Twin(g, h, block)
    ensures block < |g.info| && |h.info| == |g.info| + 1 && |g.edges| <= |h.edges|
  {}

  lemma NewBlock(g: Graph, i: BlockInfo)
    requires Valid(g)
    ensures Valid(WithBlock(g, i)) && |WithBlock(g, i).info| == |g.info| + 1
  {}

  lemma NewBlockMoved(g: Graph, i: BlockInfo, m: Graph)
    requires Valid(g) && SameShape(WithBlock(g, i), m)
    ensures Valid(m) && |m.info| == |m.succs| == |g.info| + 1 && m.succs[|g.info|] == []
    ensures m.info[|g.info|].partition == i.partition && forall b :: 0 <= b < |g.info| ==> m.info[b].partition == g.info[b].partition
  {
    SameShapeValid(WithBlock(g, i), m);
  }

  // ---- copies stand for what they were copied from ----

  /** o gives the block of g that each block of h stands for: itself for a block of g, and for a copy the block copied.
      The outgoing edges of a block lead, one by one, to what stands for where those of the original lead. */
  ghost predicate Origins(g: Graph, h: Graph, o: seq<nat>) {
    && |g.succs| <= |h.succs| == |o|
    && (forall b: nat :: b < |g.succs| ==> o[b] == b)
    && (forall b: nat :: b < |o| ==> o[b] < |g.succs| && |h.succs[b]| == |g.succs[o[b]]|)
    && (forall b: nat, i: nat :: b < |o| && i < |h.succs[b]| ==> LikeEdge(g, h, o, b, i))
  }

  ghost predicate LikeEdge(g: Graph, h: Graph, o: seq<nat>, b: nat, i: nat)
    requires b < |o| == |h.succs| && i < |h.succs[b]|
  {
    && o[b] < |g.succs| && i < |g.succs[o[b]]| && h.succs[b][i] < |h.edges| && g.succs[o[b]][i] < |g.edges|
    && h.edges[h.succs[b][i]].dest < |o| && o[h.edges[h.succs[b][i]].dest] == g.edges[g.succs[o[b]][i]].dest
  }

  ghost predicate Unfolds(g: Graph, h: Graph) {
    exists o :: Origins(g, h, o)
  }

  lemma UnfoldsSelf(g: Graph)
    requires Valid(g)
    ensures Unfolds(g, g)
  {
    var o := seq(|g.succs|, i requires i >= 0 => i as nat);
    forall b: nat, i: nat | b < |o| && i < |g.succs[b]| ensures LikeEdge(g, g, o, b, i) { EdgeOf(g, b, i); }
    assert Origins(g, g, o);
  }

  lemma UnfoldsTwice(g: Graph, h: Graph, k: Graph)
    requires Unfolds(g, h) && Unfolds(h, k)
    ensures Unfolds(g, k)
  {
    var o :| Origins(g, h, o);
    var q :| Origins(h, k, q);
    var r := seq(|q|, i requires 0 <= i < |q| && q[i] < |o| => o[q[i]]);
    forall b: nat, i: nat | b < |r| && i < |k.succs[b]| ensures LikeEdge(g, k, r, b, i) {
      assert LikeEdge(h, k, q, b, i);
      assert LikeEdge(g, h, o, q[b], i);
    }
    assert Origins(g, k, r);
  }

  /** Duplicating a block keeps that. */
  lemma UnfoldsDuplicated(g: Graph, h: Graph, k: Graph, block: nat, e: nat)
    requires Unfolds(g, h) && block < |h.succs| && e < |h.edges| && Duplicated(h, k, block, e)
    ensures Unfolds(g, k)
  {
    var o :| Origins(g, h, o);
    var q := o + [o[block]];
    forall b: nat, i: nat | b < |q| && i < |k.succs[b]| ensures LikeEdge(g, k, q, b, i) {
      assert LikeEdge(g, h, o, if b < |o| then b else block, i);
    }
    assert Origins(g, k, q);
  }

  /** The blocks passed through from b on when the choices say which outgoing edge is taken. */
  ghost function Visits(g: Graph, b: nat, choices: seq<nat>): seq<nat>
    decreases |choices|
  {
    if choices == [] || b >= |g.succs| || choices[0] >= |g.succs[b]| || g.succs[b][choices[0]] >= |g.edges| then [b]
    else [b] + Visits(g, g.edges[g.succs[b][choices[0]]].dest, choices[1..])
  }

  /** The same choices lead through blocks that stand for the same blocks. */
  lemma {:induction false} SameVisits(g: Graph, h: Graph, o: seq<nat>, b: nat, choices: seq<nat>)
    requires Origins(g, h, o) && b < |o|
    ensures var w, v := Visits(h, b, choices), Visits(g, o[b], choices);
      |w| == |v| && forall i: nat :: i < |w| ==> w[i] < |o| && o[w[i]] == v[i]
    decreases |choices|
  {
    if choices != [] && choices[0] < |h.succs[b]| {
      assert LikeEdge(g, h, o, b, choices[0]);
      SameVisits(g, h, o, h.edges[h.succs[b][choices[0]]].dest, choices[1..]);
    }
  }
}
