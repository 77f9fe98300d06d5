/** The state of the pass: what bb-reorder.c keeps in the blocks, in bbd[], in traces[] and in its heaps. */
module Layouts {
  import opened FlowGraphs

  const NONE: int := -1

  /** bbro_basic_block_data. `heap` is the number of the heap the block is in, or NONE. */
  datatype Data = Data(startOfTrace: int, endOfTrace: int, inTrace: int, heap: int)

  const UNKNOWN := Data(NONE, NONE, NONE, NONE)

  datatype Trace = Trace(first: nat, last: nat, round: nat, length: int)

  /** A snapshot. `visited[b]` is 0, or one more than the number of the trace of b; `chains[t]` lists the blocks of
      trace t in order, which the source reads off `aux`. */
  datatype State = State(g: Graph, aux: seq<int>, visited: seq<nat>, bbd: seq<Data>, heaps: seq<map<nat, int>>,
                         chains: seq<seq<nat>>)

  ghost predicate Sized(s: State) {
    Valid(s.g) && |s.aux| == |s.visited| == |s.bbd| == |s.g.info|
  }

  // ---- the chains ----

  /** What comes after position i of c, which goes on with end. */
  function Next(c: seq<nat>, i: nat, end: int): int {
    if i + 1 < |c| then c[i + 1] else end
  }

  /** aux leads along the blocks of c and then to end. */
  ghost predicate Chain(aux: seq<int>, c: seq<nat>, end: int) {
    forall i :: 0 <= i < |c| ==> c[i] < |aux| && aux[c[i]] == Next(c, i, end)
  }

  /** Every chain ends with NONE, but that of trace t with end. */
  ghost predicate Chained(s: State, t: nat, end: int) {
    forall u :: 0 <= u < |s.chains| ==> Chain(s.aux, s.chains[u], if u == t then end else NONE)
  }

  ghost predicate Once(c: seq<nat>) {
    forall i, j :: 0 <= i < j < |c| ==> c[i] != c[j]
  }

  /** c lists the blocks visited as number n, each once. */
  ghost predicate Lists(visited: seq<nat>, c: seq<nat>, n: nat) {
    && Once(c)
    && (forall b :: b in c ==> b < |visited| && visited[b] == n)
    && (forall b :: 0 <= b < |visited| && visited[b] == n ==> b in c)
  }

  /** Each visited block is once in the chain of its trace, and in no other one. */
  ghost predicate Owned(s: State) {
    && (forall t :: 0 <= t < |s.chains| ==> Lists(s.visited, s.chains[t], t + 1))
    && (forall b :: 0 <= b < |s.visited| ==> s.visited[b] <= |s.chains|)
    && |s.visited| >= 2 && s.visited[ENTRY] == 0 && s.visited[EXIT] == 0
  }

  /** When chain t is replaced by one that lists what is visited as t + 1 now, and nothing else is. */
  lemma ReplacedOwned(s: State, r: State, t: nat)
    requires Owned(s) && t < |s.chains| == |r.chains| && |s.visited| <= |r.visited|
    requires forall u :: 0 <= u < |s.chains| && u != t ==> r.chains[u] == s.chains[u]
    requires Lists(r.visited, r.chains[t], t + 1)
    requires forall b :: 0 <= b < |s.visited| ==> r.visited[b] == s.visited[b] || (s.visited[b] == 0 && r.visited[b] == t + 1)
    requires forall b :: |s.visited| <= b < |r.visited| ==> r.visited[b] == t + 1
    requires r.visited[ENTRY] == 0 && r.visited[EXIT] == 0
    ensures Owned(r)
  {
    hide Once;
    forall u | 0 <= u < |r.chains| ensures Lists(r.visited, r.chains[u], u + 1) {
      assert Lists(s.visited, s.chains[u], u + 1);
    }
  }

  ghost predicate Loose(s: State) {
    |s.aux| == |s.visited| && forall b :: 0 <= b < |s.visited| && s.visited[b] == 0 ==> s.aux[b] == NONE
  }

  /** The blocks of a chain are in one partition. */
  ghost predicate OneColour(g: Graph, c: seq<nat>) {
    && (|c| > 0 ==> c[0] < |g.info|)
    && (forall i :: 0 <= i < |c| ==> c[i] < |g.info| && g.info[c[i]].partition == g.info[c[0]].partition)
  }

  ghost predicate Coloured(s: State) {
    forall t :: 0 <= t < |s.chains| ==> OneColour(s.g, s.chains[t])
  }

  // ---- the heaps ----

  /** A block is in a heap iff its entry says so, and then it is not visited. */
  ghost predicate Queued(s: State) {
    && |s.bbd| == |s.visited| >= 2
    && (forall b :: 0 <= b < |s.bbd| && s.bbd[b].heap != NONE ==>
          0 <= s.bbd[b].heap < |s.heaps| && b in s.heaps[s.bbd[b].heap] && s.visited[b] == 0)
    && (forall h, b {:trigger b in s.heaps[h]} :: 0 <= h < |s.heaps| && b in s.heaps[h] ==> b < |s.bbd| && s.bbd[b].heap == h)
    && s.bbd[ENTRY].heap == NONE && s.bbd[EXIT].heap == NONE
  }

  /** d is taken care of: the exit, visited, or in a heap. */
  ghost predicate Covered(s: State, d: nat) {
    d == EXIT || (d < |s.visited| && d < |s.bbd| && (s.visited[d] > 0 || s.bbd[d].heap != NONE))
  }

  /** The entry, or a visited block. */
  predicate Passed(s: State, b: nat) {
    b < |s.visited| && (b == ENTRY || s.visited[b] > 0)
  }

  /** Every successor (in graph g) of the entry and of visited blocks is taken care of, but perhaps `but`. */
  ghost predicate ClosedBut(s: State, g: Graph, but: int) {
    forall b, d :: Passed(s, b) && Flows(g, b, d) ==> Covered(s, d) || d == but
  }

  /** The same, but perhaps for bb and its own successors. */
  ghost predicate ClosedBehind(s: State, g: Graph, bb: nat) {
    forall b, d :: Passed(s, b) && Flows(g, b, d) ==> Covered(s, d) || d == bb || Flows(g, bb, d)
  }

  // ---- the traces ----

  /** traces[u] gives the ends of chain u, and they are marked as such. */
  ghost predicate EndOf(s: State, traces: seq<Trace>, u: nat) {
    && u < |traces| && u < |s.chains| && |s.chains[u]| > 0
    && traces[u].first == s.chains[u][0] && traces[u].last == s.chains[u][|s.chains[u]| - 1]
    && traces[u].first < |s.bbd| && s.bbd[traces[u].first].startOfTrace == u
    && traces[u].last < |s.bbd| && s.bbd[traces[u].last].endOfTrace == u
  }

  /** Only blocks that start (end) one of the first t traces are marked as such. */
  ghost predicate Marked(bbd: seq<Data>, traces: seq<Trace>, t: nat) {
    && t <= |traces|
    && (forall b :: 0 <= b < |bbd| && bbd[b].startOfTrace >= 0 ==>
          bbd[b].startOfTrace < t && traces[bbd[b].startOfTrace].first == b)
    && (forall b :: 0 <= b < |bbd| && bbd[b].endOfTrace >= 0 ==>
          bbd[b].endOfTrace < t && traces[bbd[b].endOfTrace].last == b)
  }

  ghost predicate Ends(s: State, traces: seq<Trace>, t: nat) {
    Marked(s.bbd, traces, t) && forall u :: 0 <= u < t ==> EndOf(s, traces, u)
  }

  /** Block b has the outgoing edges it had in g0. */
  predicate SameOut(g: Graph, g0: Graph, b: nat) {
    && b < |g.succs| && b < |g0.succs| && g.succs[b] == g0.succs[b]
    && forall i :: 0 <= i < |g.succs[b]| ==>
         g.succs[b][i] < |g.edges| && g.succs[b][i] < |g0.edges| && g.edges[g.succs[b][i]].dest == g0.edges[g.succs[b][i]].dest
  }

  /** Only blocks that are visited, and copies, which are, have been edited; and copies stand for what they copy. */
  ghost predicate SinceStart(s: State, g0: Graph) {
    Unfolds(g0, s.g) && forall b :: 0 <= b < |s.visited| && s.visited[b] == 0 ==> SameOut(s.g, g0, b)
  }

  /** Every block but the entry and the exit is hot or cold. */
  predicate AllHotOrCold(g: Graph) {
    forall b :: 1 < b < |g.info| ==> g.info[b].partition != Unpartitioned
  }

  /** What holds all the time. */
  ghost predicate Base(s: State, g0: Graph) {
    && Sized(s) && Owned(s) && Loose(s) && Queued(s) && Coloured(s) && SinceStart(s, g0)
    && (AllHotOrCold(g0) ==> AllHotOrCold(s.g))
  }

  lemma SameFlows(g: Graph, g0: Graph, b: nat)
    requires SameOut(g, g0, b)
    ensures forall d: nat :: Flows(g, b, d) <==> Flows(g0, b, d)
  {
    forall d: nat ensures Flows(g, b, d) <==> Flows(g0, b, d) {
      if Flows(g, b, d) {
        var i :| 0 <= i < |g.succs[b]| && FlowsBy(g, b, i, d);
        assert FlowsBy(g0, b, i, d);
      }
      if Flows(g0, b, d) {
        var i :| 0 <= i < |g0.succs[b]| && FlowsBy(g0, b, i, d);
        assert FlowsBy(g, b, i, d);
      }
    }
  }

  // ---- visiting a block ----

  /** mark_bb_visited: out of its heap, and at the end of the chain of trace t. */
  function Dequeued(s: State, b: nat): State
    requires b < |s.bbd|
  {
    var h := s.bbd[b].heap;
    if 0 <= h < |s.heaps| then s.(heaps := s.heaps[h := s.heaps[h] - {b}], bbd := s.bbd[b := s.bbd[b].(heap := NONE)]) else s
  }

  ghost function Visited(s: State, b: nat, t: nat): State
    requires b < |s.bbd| && b < |s.visited| && t < |s.chains|
  {
    Dequeued(s, b).(visited := s.visited[b := t + 1], chains := s.chains[t := s.chains[t] + [b]])
  }

  lemma DequeuedQueued(s: State, b: nat)
    requires Queued(s) && b < |s.bbd|
    ensures Queued(Dequeued(s, b)) && Dequeued(s, b).bbd[b].heap == NONE
    ensures forall x :: 0 <= x < |s.bbd| && x != b ==> Dequeued(s, b).bbd[x] == s.bbd[x]
  {}

  lemma VisitedOwned(s: State, b: nat, t: nat)
    requires Owned(s) && b < |s.bbd| && b < |s.visited| && t < |s.chains|
    requires s.visited[b] == 0 && b != ENTRY && b != EXIT
    ensures Owned(Visited(s, b, t))
  {
    ListsOneMore(s.visited, s.chains[t], t + 1, b);
    hide Lists;
    assert Lists(s.visited, s.chains[t], t + 1);
    ReplacedOwned(s, Visited(s, b, t), t);
  }

  lemma ListsOneMore(visited: seq<nat>, c: seq<nat>, n: nat, b: nat)
    requires b < |visited| && visited[b] == 0 && n > 0
    ensures Lists(visited, c, n) ==> Lists(visited[b := n], c + [b], n)
  {
    if Lists(visited, c, n) {
      assert (c + [b])[|c|] == b;
      forall x | x in c ensures x in c + [b] {}
    }
  }

  /** The trace grows by bb, whose place was prepared. */
  lemma VisitedBase(s: State, g0: Graph, bb: nat, t: nat)
    requires Base(s, g0) && bb < |s.bbd| && t < |s.chains| && s.visited[bb] == 0 && bb != ENTRY && bb != EXIT
    requires s.chains[t] != [] ==> s.chains[t][0] < |s.g.info| && s.g.info[bb].partition == s.g.info[s.chains[t][0]].partition
    ensures Base(Visited(s, bb, t), g0)
  {
    hide Valid, SameOut;
    DequeuedQueued(s, bb);
    VisitedOwned(s, bb, t);
    var r := Visited(s, bb, t);
    assert Coloured(r) by {
      hide Owned, Queued, Loose, SinceStart;
      forall u | 0 <= u < |r.chains| ensures OneColour(r.g, r.chains[u]) {
        assert OneColour(s.g, s.chains[u]);
      }
    }
  }

  lemma ChainAppend(aux: seq<int>, c: seq<nat>, b: nat)
    requires Chain(aux, c, b) && b < |aux| && aux[b] == NONE
    ensures Chain(aux, c + [b], NONE)
  {}

  lemma ChainRelink(aux: seq<int>, c: seq<nat>, end: int, next: int)
    requires |c| > 0 && Chain(aux, c, end) && Once(c)
    ensures Chain(aux[c[|c| - 1] := next], c, next)
  {}

  lemma ChainElsewhere(aux: seq<int>, c: seq<nat>, end: int, b: nat, next: int)
    requires Chain(aux, c, end) && b !in c && b < |aux|
    ensures Chain(aux[b := next], c, end)
  {}

  lemma Apart(s: State, t: nat, u: nat, i: nat)
    requires Owned(s) && t < |s.chains| && i < |s.chains[t]| && u < |s.chains| && u != t
    ensures s.chains[t][i] !in s.chains[u]
  {
    hide Once;
    assert s.chains[t][i] in s.chains[t];
    assert Lists(s.visited, s.chains[t], t + 1);
    assert Lists(s.visited, s.chains[u], u + 1);
  }

  lemma Distinct(s: State, t: nat)
    requires Owned(s) && t < |s.chains|
    ensures Once(s.chains[t])
  {
    assert Lists(s.visited, s.chains[t], t + 1);
  }

  lemma InChain(s: State, t: nat, i: nat)
    requires Owned(s) && t < |s.chains| && i < |s.chains[t]|
    ensures s.chains[t][i] < |s.visited| && s.visited[s.chains[t][i]] == t + 1
    ensures s.chains[t][i] != ENTRY && s.chains[t][i] != EXIT
  {
    hide Once;
    assert s.chains[t][i] in s.chains[t];
    assert Lists(s.visited, s.chains[t], t + 1);
  }

  lemma VisitedChained(s: State, bb: nat, t: nat)
    requires Loose(s) && Chained(s, t, bb) && bb < |s.bbd| && t < |s.chains|
    requires bb < |s.visited| && s.visited[bb] == 0
    ensures Chained(Visited(s, bb, t), t, NONE)
  {
    hide Chain;
    var r := Visited(s, bb, t);
    forall u | 0 <= u < |r.chains| ensures Chain(r.aux, r.chains[u], NONE) {
      assert Chain(s.aux, s.chains[u], if u == t then bb else NONE);
      if u == t { ChainAppend(s.aux, s.chains[t], bb); }
    }
  }

  lemma VisitedClosed(s: State, g: Graph, bb: nat, t: nat)
    requires Queued(s) && ClosedBehind(s, g, bb) && bb < |s.bbd| && t < |s.chains|
    ensures ClosedBehind(Visited(s, bb, t), g, bb)
  {
    hide Flows;
    DequeuedQueued(s, bb);
    var r := Visited(s, bb, t);
    forall d: nat | Covered(s, d) ensures Covered(r, d) {}
  }

  // ---- putting a block into a heap ----

  /** fibheap_insert, and fibheap_replace_key. */
  function WithKey(heaps: seq<map<nat, int>>, h: nat, d: nat, key: int): seq<map<nat, int>>
    requires h < |heaps|
  {
    var heap: map<nat, int> := heaps[h][d := key];
    heaps[h := heap]
  }

  function Enqueued(s: State, d: nat, h: nat, key: int): State
    requires d < |s.bbd| && h < |s.heaps|
  {
    s.(heaps := WithKey(s.heaps, h, d, key), bbd := s.bbd[d := s.bbd[d].(heap := h)])
  }

  lemma EnqueuedBase(s: State, g0: Graph, d: nat, h: nat, key: int)
    requires Base(s, g0) && d < |s.bbd| && h < |s.heaps| && d != ENTRY && d != EXIT && s.visited[d] == 0
    requires s.bbd[d].heap == NONE || s.bbd[d].heap == h
    ensures Base(Enqueued(s, d, h, key), g0)
    ensures forall x: nat :: Covered(s, x) || x == d ==> Covered(Enqueued(s, d, h, key), x)
  {
    hide Valid, SameOut;
  }

  // ---- linking ----

  function Linked(s: State, b: nat, next: int): State
    requires b < |s.aux|
  {
    s.(aux := s.aux[b := next])
  }

  lemma LinkedLast(s: State, t: nat, end: int, next: int)
    requires Owned(s) && t < |s.chains| && Chained(s, t, end) && s.chains[t] != []
    requires s.chains[t][|s.chains[t]| - 1] < |s.aux|
    ensures Chained(Linked(s, s.chains[t][|s.chains[t]| - 1], next), t, next)
  {
    var k: nat := |s.chains[t]| - 1;
    Distinct(s, t);
    forall u | 0 <= u < |s.chains| && u != t ensures s.chains[t][k] !in s.chains[u] {
      Apart(s, t, u, k);
    }
    hide Chain, Owned;
    var r := Linked(s, s.chains[t][k], next);
    forall u | 0 <= u < |r.chains| ensures Chain(r.aux, r.chains[u], if u == t then next else NONE) {
      assert Chain(s.aux, s.chains[u], if u == t then end else NONE);
      if u == t {
        ChainRelink(s.aux, s.chains[t], end, next);
      } else {
        ChainElsewhere(s.aux, s.chains[u], NONE, s.chains[t][k], next);
      }
    }
  }

  lemma LinkedBase(s: State, g0: Graph, b: nat, next: int)
    requires Base(s, g0) && b < |s.aux| && s.visited[b] > 0
    ensures Base(Linked(s, b, next), g0)
    ensures forall d: nat :: Covered(s, d) <==> Covered(Linked(s, b, next), d)
  {
    hide Valid, SameOut;
  }

  predicate Disjoint(a: seq<nat>, b: seq<nat>) {
    forall i, j :: 0 <= i < |a| && 0 <= j < |b| ==> a[i] != b[j]
  }

  lemma OnceConcat(a: seq<nat>, b: seq<nat>)
    ensures Once(a + b) <==> Once(a) && Once(b) && Disjoint(a, b)
  {
    var c := a + b;
    if Once(c) {
      forall i, j | 0 <= i < j < |a| ensures a[i] != a[j] { assert c[i] == a[i] && c[j] == a[j]; }
      forall i, j | 0 <= i < j < |b| ensures b[i] != b[j] { assert c[|a| + i] == b[i] && c[|a| + j] == b[j]; }
      forall i, j | 0 <= i < |a| && 0 <= j < |b| ensures a[i] != b[j] { assert c[i] == a[i] && c[|a| + j] == b[j]; }
    }
  }

  // ---- rotating a loop at the end of a chain ----

  /** The blocks of c from position p on, rotated so that the one at position j is last. */
  function Rotated(c: seq<nat>, p: nat, j: nat): seq<nat>
    requires p <= j < |c|
  {
    c[..p] + c[j + 1..] + c[p..j + 1]
  }

  /** The block in front of the loop is made to lead to where the loop starts now. */
  function Spliced(aux: seq<int>, c: seq<nat>, p: nat, j: nat): seq<int>
    requires p <= j < |c| && forall i :: 0 <= i < |c| ==> c[i] < |aux|
  {
    if p > 0 then aux[c[p - 1] := aux[c[j]]] else aux
  }

  /** Where the block at position i of the rotated chain was. */
  function Before(n: nat, p: nat, j: nat, i: nat): (x: nat)
    requires p <= j < n && i < n
    ensures x < n
  {
    var m := n - j - 1;
    if i < p then i else if i < p + m then j + 1 + (i - p) else i - m
  }

  lemma RotatedAt(c: seq<nat>, p: nat, j: nat, i: nat)
    requires p <= j < |c| && i < |c|
    ensures |Rotated(c, p, j)| == |c| && Rotated(c, p, j)[i] == c[Before(|c|, p, j, i)]
  {}

  lemma SplicedAt(aux: seq<int>, c: seq<nat>, p: nat, j: nat, x: nat)
    requires p <= j < |c| && Once(c) && Chain(aux, c, c[p]) && x < |c|
    ensures c[x] < |Spliced(aux, c, p, j)| && c[j] < |aux| && c[x] < |aux|
    ensures Spliced(aux, c, p, j)[c[x]] == if x + 1 == p then aux[c[j]] else aux[c[x]]
    ensures aux[c[x]] == Next(c, x, c[p])
  {
    hide Next;
    if p > 0 && x + 1 != p { OnceApart(c, x, p - 1); }
  }

  lemma OnceApart(c: seq<nat>, x: nat, y: nat)
    requires Once(c) && x < |c| && y < |c| && x != y
    ensures c[x] != c[y]
  {}

  /** Where what follows in the rotated chain was. */
  lemma BeforeNext(n: nat, p: nat, j: nat, i: nat)
    requires p <= j < n && i < n
    ensures var x, y := Before(n, p, j, i), Before(n, p, j, if i + 1 == n then p else i + 1);
      var start := Before(n, p, j, p);
      && start == (if j + 1 < n then j + 1 else p)
      && y == if x + 1 == p || x == j then start else if x + 1 == n then p else x + 1
  {}

  lemma RotatedNext(aux: seq<int>, c: seq<nat>, p: nat, j: nat, i: nat)
    requires p <= j < |c| && Once(c) && Chain(aux, c, c[p]) && i < |c|
    ensures var d, ax := Rotated(c, p, j), Spliced(aux, c, p, j);
      |d| == |c| && d[i] < |ax| && ax[d[i]] == Next(d, i, d[p]) && d[p] == aux[c[j]]
  {
    hide Rotated, Before, Spliced, Once, Chain;
    var y := if i + 1 == |c| then p else i + 1;
    RotatedAt(c, p, j, i);
    RotatedAt(c, p, j, y);
    RotatedAt(c, p, j, p);
    BeforeNext(|c|, p, j, i);
    SplicedAt(aux, c, p, j, Before(|c|, p, j, i));
    SplicedAt(aux, c, p, j, j);
  }

  lemma RotatedChain(aux: seq<int>, c: seq<nat>, p: nat, j: nat)
    requires p <= j < |c| && Once(c) && Chain(aux, c, c[p])
    ensures |Rotated(c, p, j)| == |c| && Rotated(c, p, j)[p] == aux[c[j]]
    ensures Chain(Spliced(aux, c, p, j), Rotated(c, p, j), Rotated(c, p, j)[p])
  {
    RotatedNext(aux, c, p, j, p);
    forall i | 0 <= i < |c|
      ensures var d, ax := Rotated(c, p, j), Spliced(aux, c, p, j);
        |d| == |c| && d[i] < |ax| && ax[d[i]] == Next(d, i, d[p]) && d[p] == aux[c[j]]
    {
      RotatedNext(aux, c, p, j, i);
    }
    hide Rotated, Spliced, Once;
  }

  lemma RotatedMembers(c: seq<nat>, p: nat, j: nat)
    requires p <= j < |c| && Once(c)
    ensures Once(Rotated(c, p, j)) && forall x :: x in Rotated(c, p, j) <==> x in c
  {
    var a, b, d := c[..p], c[p..j + 1], c[j + 1..];
    assert c == a + b + d;
    OnceConcat(a + b, d);
    OnceConcat(a, b);
    OnceConcat(a, d);
    OnceConcat(a + d, b);
    forall i, k | 0 <= i < |a| && 0 <= k < |d| ensures a[i] != d[k] {
      assert (a + b)[i] == a[i];
    }
    forall i, k | 0 <= i < |a + d| && 0 <= k < |b| ensures (a + d)[i] != b[k] {
      assert (a + b)[|a| + k] == b[k];
    }
  }

  // ---- duplicating a block into a chain ----

  /** c with n behind position k. */
  function Inserted(c: seq<nat>, k: nat, n: nat): seq<nat>
    requires k < |c|
  {
    c[..k + 1] + [n] + c[k + 1..]
  }

  lemma InsertedChain(aux: seq<int>, c: seq<nat>, k: nat, end: int)
    requires Chain(aux, c, end) && k < |c| && Once(c)
    ensures Chain(aux[c[k] := |aux|] + [aux[c[k]]], Inserted(c, k, |aux|), end)
  {}

  lemma InsertedElsewhere(aux: seq<int>, c: seq<nat>, end: int, b: nat, x: int)
    requires Chain(aux, c, end) && b !in c && b < |aux|
    ensures Chain(aux[b := |aux|] + [x], c, end)
  {}

  /** move_block_after: block n comes after `after`. */
  function MovedInfo(info: seq<BlockInfo>, n: nat, after: nat): seq<BlockInfo>
    requires n < |info| && after < |info|
  {
    var next := info[after].next;
    var moved := info[n := info[n].(prev := after, next := next)];
    var behind := moved[after := moved[after].(next := n)];
    if 0 <= next < |behind| then behind[next := behind[next].(prev := n)] else behind
  }

  function NotNegative(x: int): int {
    if x < 0 then 0 else x
  }

  /** The new block n gets the count and the frequency given, and block loses them. */
  function ProfiledInfo(info: seq<BlockInfo>, block: nat, n: nat, count: int, frequency: int): seq<BlockInfo>
    requires block < |info| && n < |info|
  {
    info[n := info[n].(count := count, frequency := frequency)]
        [block := info[block].(count := NotNegative(info[block].count - count), frequency := NotNegative(info[block].frequency - frequency))]
  }

  /** In h the profile of the block is divided between it and its copy, which has what the edge e brings, but not more
      than there is. */
  ghost predicate Divided(g: Graph, h: Graph, block: nat, e: nat)
    requires Indexed(g) && e < |g.edges| && block < |g.info|
  {
    && |h.info| == |g.info| + 1
    && var n, was := |g.info|, g.info[block];
       var count := if was.count < g.edges[e].count then was.count else g.edges[e].count;
       var frequency := EdgeFrequency(g, e);
       && h.info[n].count == count && h.info[n].frequency == frequency
       && h.info[block].count == NotNegative(was.count - count) && h.info[block].frequency == NotNegative(was.frequency - frequency)
       && (forall b :: 0 <= b < n && b != block ==> h.info[b].count == g.info[b].count && h.info[b].frequency == g.info[b].frequency)
  }

  /** The new block of h stands in the order of the blocks between `after` and what came next. */
  ghost predicate StandsBehind(g: Graph, h: Graph, after: nat)
    requires after < |g.info|
  {
    && |h.info| == |g.info| + 1
    && var n, next := |g.info|, g.info[after].next;
       && (next != n ==> h.info[n].prev == after && h.info[n].next == next)
       && h.info[after].next == n && (0 <= next < n ==> h.info[next].prev == n)
       && (forall b :: 0 <= b < n ==> (b != after ==> h.info[b].next == g.info[b].next) && (b != next ==> h.info[b].prev == g.info[b].prev))
  }

  lemma MovedAt(g: Graph, block: nat, after: nat, b: nat)
    requires block < |g.info| && after < |g.info| && b <= |g.info|
    ensures var info, x := MovedInfo(g.info + [g.info[block]], |g.info|, after), if b < |g.info| then g.info[b] else g.info[block];
      |info| == |g.info| + 1 && info[b].count == x.count && info[b].frequency == x.frequency
      && (b < |g.info| && b != after ==> info[b].next == x.next) && (b < |g.info| && b != g.info[after].next ==> info[b].prev == x.prev)
  {}

  lemma DividedIs(g: Graph, h: Graph, block: nat, e: nat, after: nat, count: int)
    requires Indexed(g) && e < |g.edges| && block < |g.info| && after < |g.info|
    requires count == if g.info[block].count < g.edges[e].count then g.info[block].count else g.edges[e].count
    requires var info := MovedInfo(g.info + [g.info[block]], |g.info|, after);
      |info| == |g.info| + 1 && h.info == ProfiledInfo(info, block, |g.info|, count, EdgeFrequency(g, e))
    ensures Divided(g, h, block, e)
  {
    hide EdgeFrequency, MovedInfo;
    MovedAt(g, block, after, block);
    forall b | 0 <= b < |g.info| && b != block ensures h.info[b].count == g.info[b].count && h.info[b].frequency == g.info[b].frequency {
      MovedAt(g, block, after, b);
    }
  }

  lemma StandsIs(g: Graph, h: Graph, block: nat, after: nat, count: int, frequency: int)
    requires block < |g.info| && after < |g.info|
    requires var info := MovedInfo(g.info + [g.info[block]], |g.info|, after);
      |info| == |g.info| + 1 && h.info == ProfiledInfo(info, block, |g.info|, count, frequency)
    ensures StandsBehind(g, h, after)
  {
    var info := MovedInfo(g.info + [g.info[block]], |g.info|, after);
    forall b | 0 <= b <= |g.info| ensures h.info[b].prev == info[b].prev && h.info[b].next == info[b].next {}
    forall b | 0 <= b < |g.info|
      ensures (b != after ==> h.info[b].next == g.info[b].next) && (b != g.info[after].next ==> h.info[b].prev == g.info[b].prev)
    {
      MovedAt(g, block, after, b);
    }
    hide ProfiledInfo;
  }

  /** s became r when block was duplicated behind position k of chain t, in which it is taken to be in trace `trace`. */
  ghost predicate Copied(s: State, r: State, block: nat, e: nat, t: nat, k: nat, trace: nat) {
    && t < |s.chains| && k < |s.chains[t]| && s.chains[t][k] < |s.aux|
    && block < |s.g.succs| && e < |s.g.edges| && Duplicated(s.g, r.g, block, e) && Valid(r.g)
    && r.aux == s.aux[s.chains[t][k] := |s.aux|] + [s.aux[s.chains[t][k]]]
    && r.visited == s.visited + [trace]
    && r.bbd == s.bbd + [UNKNOWN.(inTrace := trace)]
    && r.heaps == s.heaps
    && r.chains == s.chains[t := Inserted(s.chains[t], k, |s.aux|)]
  }

  lemma CopiedChained(s: State, r: State, block: nat, e: nat, t: nat, k: nat, trace: nat, end: int)
    requires Owned(s) && Chained(s, t, end) && Copied(s, r, block, e, t, k, trace)
    ensures Chained(r, t, end)
  {
    Distinct(s, t);
    forall u | 0 <= u < |s.chains| && u != t ensures s.chains[t][k] !in s.chains[u] {
      Apart(s, t, u, k);
    }
    hide Chain, Owned, Duplicated, Valid;
    forall u | 0 <= u < |r.chains| ensures Chain(r.aux, r.chains[u], if u == t then end else NONE) {
      assert Chain(s.aux, s.chains[u], if u == t then end else NONE);
      if u == t {
        InsertedChain(s.aux, s.chains[t], k, end);
      } else {
        InsertedElsewhere(s.aux, s.chains[u], NONE, s.chains[t][k], s.aux[s.chains[t][k]]);
      }
    }
  }

  lemma InsertedOwned(s: State, r: State, t: nat, k: nat)
    requires Owned(s) && t < |s.chains| && k < |s.chains[t]|
    requires r.visited == s.visited + [t + 1] && r.chains == s.chains[t := Inserted(s.chains[t], k, |s.visited|)]
    ensures Owned(r)
  {
    assert Lists(s.visited, s.chains[t], t + 1);
    ListsInserted(s.visited, s.chains[t], t + 1, k);
    hide Lists, Inserted;
    ReplacedOwned(s, r, t);
  }

  lemma InsertedOnce(c: seq<nat>, k: nat, n: nat)
    requires k < |c| && Once(c) && n !in c
    ensures Once(Inserted(c, k, n)) && forall x :: x in Inserted(c, k, n) <==> x in c || x == n
  {
    var a, b := c[..k + 1], c[k + 1..];
    assert c == a + b;
    OnceConcat(a, b);
    OnceConcat(a, [n]);
    OnceConcat(a + [n], b);
    assert Disjoint(a + [n], b) by {
      forall j | 0 <= j < |b| ensures b[j] != n { assert b[j] in c; }
    }
    forall i | 0 <= i < |a| ensures a[i] != n { assert a[i] in c; }
  }

  lemma ListsInserted(visited: seq<nat>, c: seq<nat>, n: nat, k: nat)
    requires Lists(visited, c, n) && k < |c|
    ensures Lists(visited + [n], Inserted(c, k, |visited|), n)
  {
    InsertedOnce(c, k, |visited|);
    hide Inserted, Once;
  }

  lemma CopiedColoured(s: State, r: State, block: nat, e: nat, t: nat, k: nat, trace: nat)
    requires Coloured(s) && Copied(s, r, block, e, t, k, trace) && |s.g.info| == |s.aux|
    requires s.g.info[block].partition == s.g.info[s.chains[t][0]].partition
    ensures Coloured(r)
  {
    hide Valid;
    forall u | 0 <= u < |r.chains| ensures OneColour(r.g, r.chains[u]) {
      assert OneColour(s.g, s.chains[u]);
    }
  }

  lemma CopiedSince(s: State, r: State, g0: Graph, block: nat, e: nat, t: nat, k: nat, trace: nat)
    requires Sized(s) && SinceStart(s, g0) && Copied(s, r, block, e, t, k, trace) && trace > 0
    requires s.visited[s.g.edges[e].src] > 0
    ensures SinceStart(r, g0)
  {
    UnfoldsDuplicated(g0, s.g, r.g, block, e);
    hide Unfolds;
    forall b | 0 <= b < |r.visited| && r.visited[b] == 0 ensures SameOut(r.g, g0, b) {
      assert SameOut(s.g, g0, b);
      assert r.g.succs[b] == s.g.succs[b];
    }
  }

  lemma CopiedBase(s: State, r: State, g0: Graph, block: nat, e: nat, t: nat, k: nat)
    requires Base(s, g0) && Copied(s, r, block, e, t, k, t + 1) && 1 < block
    requires s.visited[s.g.edges[e].src] > 0
    requires s.chains[t][0] < |s.g.info| && s.g.info[block].partition == s.g.info[s.chains[t][0]].partition
    ensures Base(r, g0)
    ensures forall d: nat :: Covered(s, d) ==> Covered(r, d)
  {
    hide Alike;
    CopiedHotOrCold(s, r, block, e, t, k, t + 1);
    CopiedColoured(s, r, block, e, t, k, t + 1);
    CopiedSince(s, r, g0, block, e, t, k, t + 1);
    InsertedOwned(s, r, t, k);
    hide Owned, Coloured, SinceStart, AllHotOrCold;
  }

  lemma CopiedHotOrCold(s: State, r: State, block: nat, e: nat, t: nat, k: nat, trace: nat)
    requires Copied(s, r, block, e, t, k, trace) && 1 < block && |s.g.info| == |s.aux|
    ensures AllHotOrCold(s.g) ==> AllHotOrCold(r.g)
  {
    hide Valid;
  }

  lemma CopiedClosed(s: State, r: State, block: nat, e: nat, t: nat, k: nat, but: int)
    requires Sized(s) && ClosedBut(s, s.g, but) && Copied(s, r, block, e, t, k, t + 1) && s.visited[block] > 0
    requires forall d: nat :: Covered(s, d) ==> Covered(r, d)
    ensures ClosedBut(r, r.g, but)
  {
    forall b: nat, d: nat | Passed(r, b) && Flows(r.g, b, d) ensures Covered(r, d) || d == but {
      var i :| 0 <= i < |r.g.succs[b]| && FlowsBy(r.g, b, i, d);
      if d != |s.aux| {
        var a := if b == |s.aux| then block else b;
        assert FlowsBy(s.g, a, i, d);
        assert Passed(s, a) && Flows(s.g, a, d);
      }
    }
  }

  lemma CopiedClosed0(s: State, r: State, g0: Graph, block: nat, e: nat, t: nat, k: nat, but: int)
    requires ClosedBut(s, g0, but) && Copied(s, r, block, e, t, k, t + 1) && |g0.succs| <= |s.visited|
    requires forall d: nat :: Covered(s, d) ==> Covered(r, d)
    ensures ClosedBut(r, g0, but)
  {
    hide Duplicated, Valid;
  }

  /** A block with several predecessors that is small enough to be copied; hot ones may be larger if the code may grow. */
  predicate WorthCopying(g: Graph, jumpLength: int, maxGrow: int, b: nat, codeMayGrow: bool)
    requires b < |g.info| == |g.preds| == |g.succs|
  {
    var maxSize := if codeMayGrow && g.info[b].hot then jumpLength * maxGrow else jumpLength;
    g.info[b].frequency != 0 && |g.preds[b]| >= 2 && g.info[b].canDuplicate && |g.succs[b]| <= 8 && g.info[b].size <= maxSize
  }

  lemma SameFrequency(g: Graph, m: Graph, h: Graph, block: nat, e: nat, after: nat)
    requires Valid(g) && Valid(h) && Twin(g, h, block) && e < |g.edges| && after < |g.info|
    requires h.info == m.info == MovedInfo(g.info + [g.info[block]], |g.info|, after)
    ensures Indexed(g) && Indexed(h) && e < |h.edges| && EdgeFrequency(h, e) == EdgeFrequency(g, e)
  {}

  lemma RedirectedInfo(g: Graph, e: nat, d: nat)
    requires Indexed(g) && e < |g.edges| && d < |g.info|
    ensures Redirected(g, e, d).info == g.info
  {}

  lemma ProfiledKept(g: Graph, block: nat, n: nat, count: int, frequency: int)
    requires Valid(g) && block < |g.info| && n < |g.info|
    ensures var h := g.(info := ProfiledInfo(g.info, block, n, count, frequency)); SameShape(g, h) && Valid(h)
  {
    var h := g.(info := ProfiledInfo(g.info, block, n, count, frequency));
    SameShapeKept(g, h);
    SameShapeValid(g, h);
  }

  /** The outgoing edge of block at position i was copied as a new last edge. Its count is divided between the two in the
      proportion in which that of the block is, unless the block has none. */
  ghost predicate CountDivided(g: Graph, h: Graph, block: nat, i: nat, newCount: int) {
    && block < |g.succs| && block < |g.info| && i < |g.succs[block]| && g.succs[block][i] < |g.edges| && |h.edges| == |g.edges| + 1
    && var s, n, count := g.succs[block][i], |g.edges|, g.info[block].count;
       if count == 0 then h.edges[n].count == h.edges[s].count == g.edges[s].count
       else h.edges[n].count == Quot(g.edges[s].count * Quot(newCount * 10000, count), 10000)
            && h.edges[s].count + h.edges[n].count == g.edges[s].count
  }

  class Layout {
    var g: Graph
    var aux: seq<int>
    var visited: seq<nat>
    var bbd: seq<Data>
    var heaps: seq<map<nat, int>>
    var traces: seq<Trace>
    ghost var chains: seq<seq<nat>>

    const uncondJumpLength: int
    const maxGrowCopyInsns: int
    const optimizeSize: bool
    const partitioning: bool  // flag_reorder_blocks_and_partition

    /** The state at the start of the pass, for a graph. */
    constructor (graph: Graph, jumpLength: int, maxGrow: int, forSize: bool, withPartitions: bool)
      requires Valid(graph)
      ensures g == graph && partitioning == withPartitions
      ensures traces == [] && Base(S(), graph) && chains == [] && heaps == []
      ensures forall b :: 0 <= b < |bbd| ==> bbd[b] == UNKNOWN
    {
      UnfoldsSelf(graph);
      g := graph;
      aux := seq(|graph.info|, i => NONE);
      visited := seq(|graph.info|, i => 0);
      bbd := seq(|graph.info|, i => UNKNOWN);
      heaps, traces, chains := [], [], [];
      uncondJumpLength, maxGrowCopyInsns, optimizeSize, partitioning := jumpLength, maxGrow, forSize, withPartitions;
    }

    ghost function S(): State
      reads this
    {
      State(g, aux, visited, bbd, heaps, chains)
    }

    /** copy_bb_p */
    method CopyBbP(b: nat, codeMayGrow: bool) returns (copy: bool)
      requires b < |g.info| == |g.preds| == |g.succs|
      ensures copy == WorthCopying(g, uncondJumpLength, maxGrowCopyInsns, b, codeMayGrow)
    {
      var maxSize := uncondJumpLength;
      if g.info[b].frequency == 0 { return false; }
      if |g.preds[b]| < 2 { return false; }
      if !g.info[b].canDuplicate { return false; }
      // Avoid duplicating blocks which have many successors.
      if |g.succs[b]| > 8 { return false; }
      if codeMayGrow && g.info[b].hot { maxSize := maxSize * maxGrowCopyInsns; }
      return g.info[b].size <= maxSize;
    }

    /** The loop of duplicate_block that makes the outgoing edges of the new block n, with their part of the counts. */
    method DuplicateEdges(block: nat, n: nat, newCount: int)
      requires Valid(g) && block < n && |g.info| == |g.succs| == n + 1 && g.succs[n] == [] && block != EXIT && block != ENTRY
      requires g.info[n].partition == g.info[block].partition
      modifies this`g
      ensures Copying(old(g), g, block, n, |old(g.succs[block])|) && g.info == old(g.info)
    {
      hide Valid;
      ghost var was := g;
      var i := 0;
      while i < |g.succs[block]|
        invariant Copying(was, g, block, n, i) && g.info == was.info
        decreases |was.succs[block]| - i
      {
        i := DuplicateEdge(block, n, newCount, was, i);
      }
    }

    method DuplicateEdge(block: nat, n: nat, newCount: int, ghost was: Graph, i: nat) returns (i': nat)
      requires Copying(was, g, block, n, i) && i < |was.succs[block]| && block != EXIT && block != ENTRY && n != EXIT
      requires was.info[n].partition == was.info[block].partition
      modifies this`g
      ensures i' == i + 1 && Copying(was, g, block, n, i') && g.info == was.info
      ensures CountDivided(old(g), g, block, i, newCount)
    {
      EdgeOf(g, block, i);
      hide Valid, Copying, WithEdge;
      CopyingShape(was, g, block, n, i);
      var s := g.succs[block][i];
      var count := g.info[block].count;
      var part := if count != 0 then Quot(g.edges[s].count * Quot(newCount * 10000, count), 10000) else g.edges[s].count;
      var e := g.edges[s].(src := n, count := part);
      CopyStep(was, g, block, n, i, e);
      g := WithEdge(g, e);
      i' := i + 1;
      CopyingShape(was, g, block, n, i');
      if count != 0 {
        ghost var h := g;
        g := g.(edges := g.edges[s := g.edges[s].(count := g.edges[s].count - part)]);
        CopyProfile(was, h, g, block, n, i');
      }
    }

    /** move_block_after: the new block n comes after a block in the order before the pass. */
    method MoveBlockAfter(n: nat, after: nat)
      requires Valid(g) && n < |g.info| && after < |g.info|
      modifies this`g
      ensures SameShape(old(g), g) && g.edges == old(g.edges) && g.info == MovedInfo(old(g.info), n, after)
    {
      hide Valid, SameShape;
      ghost var was := g;
      var next := g.info[after].next;
      var info := g.info[n := g.info[n].(prev := after, next := next)];
      info := info[after := info[after].(next := n)];
      if 0 <= next < |info| { info := info[next := info[next].(prev := n)]; }
      g := g.(info := info);
      SameShapeKept(was, g);
    }

    /** duplicate_block (cfghooks.c) */
    method DuplicateBlock(block: nat, e: nat, after: nat) returns (n: nat)
      requires Valid(g) && block < |g.info| && block != ENTRY && block != EXIT && after < |g.info|
      requires e < |g.edges| && g.edges[e].dest == block
      modifies this`g
      ensures Valid(g) && n == |old(g.info)| && Duplicated(old(g), g, block, e)
      ensures Divided(old(g), g, block, e) && StandsBehind(old(g), g, after)
    {
      hide Valid, SameShape, Twin, Copying, Redirected, MovedInfo, ProfiledInfo, Divided, StandsBehind, EdgeFrequency;
      ghost var g0 := g;
      ValidShape(g);
      n := |g.info|;
      var newCount := if g.info[block].count < g.edges[e].count then g.info[block].count else g.edges[e].count;
      NewBlock(g, g.info[block]);
      g := WithBlock(g, g.info[block]);
      MoveBlockAfter(n, after);
      ghost var m := g;
      NewBlockMoved(g0, g0.info[block], g);
      DuplicateEdges(block, n, newCount);
      TwinMade(g0, m, g, block, n, g0.info[block]);
      SameFrequency(g0, m, g, block, e, after);
      DuplicateProfile(block, n, newCount, e, g0);
      TwinRedirected(g0, g, block, e);
      TwinShape(g0, g, block);
      ValidShape(g);
      RedirectedInfo(g, e, n);
      g := Redirected(g, e, n);
      DividedIs(g0, g, block, e, after, newCount);
      StandsIs(g0, g, block, after, newCount, EdgeFrequency(g0, e));
    }

    /** The part of the profile that goes to the new block. */
    method DuplicateProfile(block: nat, n: nat, newCount: int, e: nat, ghost g0: Graph)
      requires Valid(g) && Twin(g0, g, block) && n == |g0.info| && e < |g0.edges| && block != n
      modifies this`g
      ensures Valid(g) && Twin(g0, g, block) && g.edges == old(g.edges)
      ensures e < |old(g.edges)| && Indexed(old(g)) && block < |old(g.info)| && n < |old(g.info)|
      ensures g.info == ProfiledInfo(old(g.info), block, n, newCount, EdgeFrequency(old(g), e))
    {
      hide Valid, SameShape, Twin, EdgeFrequency;
      TwinShape(g0, g, block);
      ValidShape(g);
      ghost var d := g;
      var freq := EdgeFrequency(g, e);
      var count, frequency := g.info[block].count - newCount, g.info[block].frequency - freq;
      if count < 0 { count := 0; }
      if frequency < 0 { frequency := 0; }
      var was, copy := g.info[block], g.info[n];
      g := g.(info := g.info[n := copy.(count := newCount, frequency := freq)][block := was.(count := count, frequency := frequency)]);
      assert g.info == ProfiledInfo(d.info, block, n, newCount, freq);
      ProfiledKept(d, block, n, newCount, freq);
      hide ProfiledInfo;
      TwinProfile(g0, d, g, block);
    }

    /** copy_bb: block is duplicated for the edge e and put behind bb, which is at position k of chain t. */
    method CopyBb(block: nat, e: nat, bb: nat, trace: nat, ghost t: nat, ghost k: nat) returns (n: nat)
      requires Sized(S()) && block < |g.info| && block != ENTRY && block != EXIT
      requires e < |g.edges| && g.edges[e].dest == block
      requires t < |chains| && k < |chains[t]| && chains[t][k] == bb < |g.info|
      modifies this`g, this`aux, this`visited, this`bbd, this`chains
      ensures n == |old(aux)| && Copied(old(S()), S(), block, e, t, k, trace)
      ensures Divided(old(g), g, block, e) && StandsBehind(old(g), g, bb)
    {
      hide Valid, Duplicated, Divided, StandsBehind;
      ValidShape(g);
      n := DuplicateBlock(block, e, bb);
      visited := visited + [trace];
      aux := aux[bb := n] + [aux[bb]];
      bbd := bbd + [UNKNOWN];
      bbd := bbd[n := bbd[n].(inTrace := trace)];
      chains := chains[t := Inserted(chains[t], k, n)];
    }
  }
}
