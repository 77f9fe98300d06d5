/** Connecting the traces: connect_traces of bb-reorder.c. */
module TraceConnection {
  import opened FlowGraphs
  import opened Layouts
  import TF = TraceFormation

  const DUPLICATION_THRESHOLD := 100

  // ---- chains of traces ----

  /** The chains are not empty, and no block is twice in them. */
  ghost predicate Spots(chains: seq<seq<nat>>, n: nat) {
    && (forall u :: 0 <= u < |chains| ==> |chains[u]| > 0 && Once(chains[u]) && Below(chains[u], n))
    && (forall u, v :: 0 <= u < v < |chains| ==> Disjoint(chains[u], chains[v]))
  }

  predicate Below(c: seq<nat>, n: nat) {
    forall i :: 0 <= i < |c| ==> c[i] < n
  }

  /** Chain u goes on with ends[u]. */
  ghost predicate Tied(aux: seq<int>, chains: seq<seq<nat>>, ends: seq<int>) {
    |ends| == |chains| && forall u :: 0 <= u < |chains| ==> Chain(aux, chains[u], ends[u])
  }

  function Last(c: seq<nat>): nat
    requires |c| > 0
  {
    c[|c| - 1]
  }

  /** Where the chain at position i of the given order should go on. */
  function Onward(chains: seq<seq<nat>>, order: seq<nat>, i: nat): int {
    if i + 1 < |order| && order[i + 1] < |chains| && |chains[order[i + 1]]| > 0 then chains[order[i + 1]][0] else NONE
  }

  /** The chains are strung together in the given order. */
  ghost predicate Strung(chains: seq<seq<nat>>, ends: seq<int>, order: seq<nat>) {
    forall i :: 0 <= i < |order| ==> order[i] < |ends| && order[i] < |chains| && ends[order[i]] == Onward(chains, order, i)
  }

  /** The blocks in the order they are strung together. */
  function Line(chains: seq<seq<nat>>, order: seq<nat>): seq<nat>
    requires forall i :: 0 <= i < |order| ==> order[i] < |chains|
  {
    if order == [] then [] else chains[order[0]] + Line(chains, order[1..])
  }

  lemma TieEnd(aux: seq<int>, chains: seq<seq<nat>>, ends: seq<int>, u: nat, x: int)
    requires Spots(chains, |aux|) && Tied(aux, chains, ends) && u < |chains|
    ensures Last(chains[u]) < |aux| && Tied(aux[Last(chains[u]) := x], chains, ends[u := x])
  {
    var last := Last(chains[u]);
    var now := ends[u := x];
    forall v | 0 <= v < |chains| ensures Chain(aux[last := x], chains[v], now[v]) {
      assert Chain(aux, chains[v], ends[v]);
      if v == u {
        ChainRelink(aux, chains[u], ends[u], x);
      } else {
        if v < u { assert Disjoint(chains[v], chains[u]); } else { assert Disjoint(chains[u], chains[v]); }
        assert chains[u][|chains[u]| - 1] == last;
        hide Chain;
        ChainElsewhere(aux, chains[v], ends[v], last, x);
      }
    }
  }

  // ---- lines ----

  lemma {:induction false} LineChain(aux: seq<int>, chains: seq<seq<nat>>, ends: seq<int>, order: seq<nat>)
    requires Tied(aux, chains, ends) && Strung(chains, ends, order)
    requires forall u :: 0 <= u < |chains| ==> |chains[u]| > 0
    ensures Chain(aux, Line(chains, order), NONE)
    ensures order != [] ==> |Line(chains, order)| > 0 && Line(chains, order)[0] == chains[order[0]][0]
  {
    if order != [] {
      var rest := order[1..];
      assert Strung(chains, ends, rest) by {
        forall i | 0 <= i < |rest| ensures ends[rest[i]] == Onward(chains, rest, i) {
          assert order[i + 1] == rest[i];
        }
      }
      LineChain(aux, chains, ends, rest);
      var c := chains[order[0]];
      var end := Onward(chains, order, 0);
      assert Chain(aux, c, end);
      if rest == [] {
        assert c + [] == c;
      } else {
        ChainConcat(aux, c, Line(chains, rest), NONE);
      }
    }
  }

  lemma ChainConcat(aux: seq<int>, c: seq<nat>, d: seq<nat>, end: int)
    requires |c| > 0 && |d| > 0 && Chain(aux, c, d[0]) && Chain(aux, d, end)
    ensures Chain(aux, c + d, end)
  {
    var e := c + d;
    forall i | 0 <= i < |e| ensures e[i] < |aux| && aux[e[i]] == Next(e, i, end) {
      if i < |c| { assert aux[c[i]] == Next(c, i, d[0]); } else { assert aux[d[i - |c|]] == Next(d, i - |c|, end); }
    }
  }

  lemma {:induction false} LineMembers(chains: seq<seq<nat>>, order: seq<nat>, b: nat)
    requires forall i :: 0 <= i < |order| ==> order[i] < |chains|
    ensures b in Line(chains, order) <==> exists i :: 0 <= i < |order| && b in chains[order[i]]
  {
    if order != [] {
      var rest := order[1..];
      LineMembers(chains, rest, b);
      if b in Line(chains, rest) {
        var i :| 0 <= i < |rest| && b in chains[rest[i]];
        assert b in chains[order[i + 1]];
      }
      if exists i :: 0 <= i < |order| && b in chains[order[i]] {
        var i :| 0 <= i < |order| && b in chains[order[i]];
        if i > 0 { assert b in chains[rest[i - 1]]; }
      }
    }
  }

  lemma {:induction false} LineOnce(chains: seq<seq<nat>>, n: nat, order: seq<nat>)
    requires Spots(chains, n) && Once(order) && forall i :: 0 <= i < |order| ==> order[i] < |chains|
    ensures Once(Line(chains, order))
  {
    if order != [] {
      var rest := order[1..];
      assert Once(rest) by { assert order == [order[0]] + rest; OnceConcat([order[0]], rest); }
      LineOnce(chains, n, rest);
      var c, d := chains[order[0]], Line(chains, rest);
      forall i, j | 0 <= i < |c| && 0 <= j < |d| ensures c[i] != d[j] {
        assert d[j] in d;
        LineMembers(chains, rest, d[j]);
        var k :| 0 <= k < |rest| && d[j] in chains[rest[k]];
        assert rest[k] == order[k + 1] != order[0];
        var m :| 0 <= m < |chains[rest[k]]| && chains[rest[k]][m] == d[j];
        ApartIn(chains, n, order[0], rest[k], i, m);
      }
      OnceConcat(c, d);
    }
  }

  lemma ApartIn(chains: seq<seq<nat>>, n: nat, u: nat, v: nat, i: nat, j: nat)
    requires Spots(chains, n) && u < |chains| && v < |chains| && u != v && i < |chains[u]| && j < |chains[v]|
    ensures chains[u][i] != chains[v][j]
  {
    hide Once, Below;
    if u < v { assert Disjoint(chains[u], chains[v]); } else { assert Disjoint(chains[v], chains[u]); }
  }

  // ---- the state while traces are being connected ----

  /** traces[] gives the ends of the chains, and bbd[] those of traces that are not connected yet. */
  ghost predicate Knows(s: State, traces: seq<Trace>, connected: seq<bool>) {
    && |traces| == |s.chains| == |connected|
    && (forall u :: 0 <= u < |traces| && |s.chains[u]| > 0 ==>
          traces[u].first == s.chains[u][0] && traces[u].last == Last(s.chains[u]))
    && (forall b :: 0 <= b < |s.bbd| && s.bbd[b].startOfTrace >= 0 ==>
          s.bbd[b].startOfTrace < |traces| && traces[s.bbd[b].startOfTrace].first == b)
    && (forall b :: 0 <= b < |s.bbd| && s.bbd[b].endOfTrace >= 0 ==>
          s.bbd[b].endOfTrace < |traces| && (!connected[s.bbd[b].endOfTrace] ==> traces[s.bbd[b].endOfTrace].last == b))
  }

  /** The connected traces are those of `order` and `seg`, each once. */
  ghost predicate Lined(connected: seq<bool>, ends: seq<int>, order: seq<nat>, seg: seq<nat>) {
    && |ends| == |connected| && Once(order + seg)
    && (forall u :: u in order + seg ==> u < |connected| && connected[u])
    && (forall u :: 0 <= u < |connected| && connected[u] ==> u in order + seg)
    && (forall u :: 0 <= u < |connected| && !connected[u] ==> ends[u] == NONE)
  }

  /** The traces of `order` have been strung together, beginning with trace 0, and so have those of `seg`. */
  ghost predicate Joining(s: State, traces: seq<Trace>, connected: seq<bool>, ends: seq<int>, order: seq<nat>, seg: seq<nat>) {
    && Sized(s) && Spots(s.chains, |s.aux|) && Tied(s.aux, s.chains, ends) && Knows(s, traces, connected)
    && Strung(s.chains, ends, order) && Strung(s.chains, ends, seg) && Lined(connected, ends, order, seg)
    && (order != [] ==> order[0] == 0)
  }

  lemma LinedBegin(connected: seq<bool>, ends: seq<int>, order: seq<nat>, u: nat)
    requires Lined(connected, ends, order, []) && u < |connected| && !connected[u]
    ensures Lined(connected[u := true], ends, order, [u])
  {
    assert order + [] == order;
    assert u !in order;
    OnceConcat(order, [u]);
    forall v | v in order + [u] ensures v in order || v == u {}
    assert u in [u];
  }

  lemma LinedPrepend(connected: seq<bool>, ends: seq<int>, order: seq<nat>, seg: seq<nat>, u: nat, x: int)
    requires Lined(connected, ends, order, seg) && u < |connected| && !connected[u]
    ensures Lined(connected[u := true], ends[u := x], order, [u] + seg)
  {
    var was, now := order + seg, order + ([u] + seg);
    assert u !in was;
    OnceConcat(order, seg);
    OnceConcat([u], seg);
    OnceConcat(order, [u] + seg);
    forall v | v in now ensures v in was || v == u {}
    forall v | v in was ensures v in now {}
    assert u in [u] + seg;
    forall i | 0 <= i < |seg| ensures seg[i] != u { assert seg[i] in was; }
    forall i, j | 0 <= i < |order| && 0 <= j < |[u] + seg| ensures order[i] != ([u] + seg)[j] { assert order[i] in was; }
  }

  lemma LinedJoin(connected: seq<bool>, ends: seq<int>, order: seq<nat>, seg: seq<nat>, u: nat, x: int)
    requires Lined(connected, ends, order, seg) && u < |connected| && connected[u]
    ensures Lined(connected, ends[u := x], order + seg, [])
  {
    assert (order + seg) + [] == order + seg;
  }

  /** A trace that is not connected becomes a segment of its own. */
  lemma BeginSegment(s: State, traces: seq<Trace>, connected: seq<bool>, ends: seq<int>, order: seq<nat>, u: nat)
    requires Joining(s, traces, connected, ends, order, []) && u < |connected| && !connected[u]
    ensures Joining(s, traces, connected[u := true], ends, order, [u])
  {
    hide Sized, Spots, Tied, Once;
    LinedBegin(connected, ends, order, u);
    hide Lined;
  }

  lemma StrungPrepend(chains: seq<seq<nat>>, ends: seq<int>, order: seq<nat>, seg: seq<nat>, u: nat, x: int)
    requires Strung(chains, ends, order) && Strung(chains, ends, seg) && u !in order && u !in seg && u < |ends| && u < |chains|
    requires seg != [] && seg[0] < |chains| && |chains[seg[0]]| > 0 && x == chains[seg[0]][0]
    ensures Strung(chains, ends[u := x], order) && Strung(chains, ends[u := x], [u] + seg)
  {
    var now := [u] + seg;
    forall i | 0 <= i < |now| ensures now[i] < |ends| && now[i] < |chains| && ends[u := x][now[i]] == Onward(chains, now, i) {
      if i > 0 { assert now[i] == seg[i - 1]; }
    }
  }

  lemma StrungJoin(chains: seq<seq<nat>>, ends: seq<int>, order: seq<nat>, seg: seq<nat>, x: int)
    requires Strung(chains, ends, order) && Strung(chains, ends, seg) && Once(order + seg) && order != []
    requires seg != [] && seg[0] < |chains| && |chains[seg[0]]| > 0 && x == chains[seg[0]][0]
    requires Last(order) < |ends|
    ensures Strung(chains, ends[Last(order) := x], order + seg)
  {
    var now := order + seg;
    var k: nat := |order| - 1;
    OnceConcat(order, seg);
    forall i | 0 <= i < |now|
      ensures now[i] < |ends| && now[i] < |chains| && ends[Last(order) := x][now[i]] == Onward(chains, now, i)
    {
      if i < k {
        assert now[i] == order[i] != order[k] && Onward(chains, order, i) == Onward(chains, now, i);
      } else if i > k {
        assert now[i] == seg[i - k - 1] != order[k] && Onward(chains, seg, i - k - 1) == Onward(chains, now, i);
      }
    }
  }

  /** A trace that is not connected is put in front of the segment. */
  lemma PrependTrace(s: State, r: State, traces: seq<Trace>, connected: seq<bool>, ends: seq<int>, order: seq<nat>, seg: seq<nat>, u: nat)
    requires Joining(s, traces, connected, ends, order, seg) && u < |connected| && !connected[u]
    requires seg != [] && seg[0] < |s.chains| && |s.chains[seg[0]]| > 0 && |s.chains[u]| > 0 && Last(s.chains[u]) < |s.aux|
    requires r == s.(aux := s.aux[Last(s.chains[u]) := s.chains[seg[0]][0]])
    ensures Joining(r, traces, connected[u := true], ends[u := s.chains[seg[0]][0]], order, [u] + seg)
  {
    hide Lined, Valid, Once, Spots, Tied, Strung;
    var x := s.chains[seg[0]][0];
    NotYet(connected, ends, order, seg, u);
    LinedPrepend(connected, ends, order, seg, u, x);
    TieEnd(s.aux, s.chains, ends, u, x);
    StrungPrepend(s.chains, ends, order, seg, u, x);
  }

  lemma NotYet(connected: seq<bool>, ends: seq<int>, order: seq<nat>, seg: seq<nat>, u: nat)
    requires Lined(connected, ends, order, seg) && u < |connected| && !connected[u]
    ensures |connected| == |ends| && u !in order && u !in seg
  {
    assert u !in order + seg;
  }

  /** The segment is strung to the end of what has been strung together before. */
  lemma JoinSegment(s: State, r: State, traces: seq<Trace>, connected: seq<bool>, ends: seq<int>, order: seq<nat>, seg: seq<nat>)
    requires Joining(s, traces, connected, ends, order, seg) && order != [] && seg != []
    requires Last(order) < |s.chains| && seg[0] < |s.chains| && |s.chains[Last(order)]| > 0 && |s.chains[seg[0]]| > 0
    requires Last(s.chains[Last(order)]) < |s.aux|
    requires r == s.(aux := s.aux[Last(s.chains[Last(order)]) := s.chains[seg[0]][0]])
    ensures Joining(r, traces, connected, ends[Last(order) := s.chains[seg[0]][0]], order + seg, [])
  {
    hide Lined, Valid, Once, Spots, Tied, Strung, Knows;
    var x := s.chains[seg[0]][0];
    var u := Last(order);
    LinedLast(connected, ends, order, seg);
    LinedJoin(connected, ends, order, seg, u, x);
    TieEnd(s.aux, s.chains, ends, u, x);
    StrungJoin(s.chains, ends, order, seg, x);
    KnowsSame(s, r, traces, connected);
    StrungNone(s.chains, ends[u := x]);
  }

  lemma LinedLast(connected: seq<bool>, ends: seq<int>, order: seq<nat>, seg: seq<nat>)
    requires Lined(connected, ends, order, seg) && order != []
    ensures Last(order) < |connected| == |ends| && connected[Last(order)] && Once(order + seg)
  {
    assert (order + seg)[|order| - 1] == Last(order);
    assert Last(order) in order + seg;
  }

  lemma KnowsSame(s: State, r: State, traces: seq<Trace>, connected: seq<bool>)
    requires Knows(s, traces, connected) && r == s.(aux := r.aux)
    ensures Knows(r, traces, connected)
  {}

  lemma StrungNone(chains: seq<seq<nat>>, ends: seq<int>)
    ensures Strung(chains, ends, [])
  {}

  /** The first segment. */
  lemma FirstSegment(s: State, traces: seq<Trace>, connected: seq<bool>, ends: seq<int>, seg: seq<nat>)
    requires Joining(s, traces, connected, ends, [], seg) && seg != [] && seg[0] == 0
    ensures Joining(s, traces, connected, ends, seg, [])
  {
    assert [] + seg == seg == seg + [];
  }

  /** The facts about trace u that the procedure uses. */
  lemma TraceFacts(s: State, traces: seq<Trace>, connected: seq<bool>, ends: seq<int>, order: seq<nat>, seg: seq<nat>, u: nat)
    requires Joining(s, traces, connected, ends, order, seg) && u < |traces|
    ensures |traces| == |s.chains| == |connected| == |ends| && |s.chains[u]| > 0 && Sized(s)
    ensures traces[u].first == s.chains[u][0] < |s.aux| && traces[u].last == Last(s.chains[u]) < |s.aux|
    ensures |s.g.info| == |s.aux| == |s.bbd| == |s.g.succs| == |s.g.preds|
    ensures order != [] ==> Last(order) < |traces|
    ensures seg != [] ==> seg[0] < |traces|
  {
    assert order != [] ==> Last(order) in order + seg;
    assert seg != [] ==> seg[0] in order + seg;
    hide Lined, Strung, Tied, Valid;
  }

  // ---- choosing an edge to connect by ----

  /** What a decision about what to connect depends on. */
  datatype Search = Search(g: Graph, bbd: seq<Data>, traces: seq<Trace>, connected: seq<bool>, part: Partition, freqThreshold: int,
                           countThreshold: int, partitioning: bool, optimizeSize: bool, jumpLength: int, maxGrow: int)

  function SearchOf(p: Layout, connected: seq<bool>, part: Partition, freqThreshold: int, countThreshold: int): Search
    reads p`g, p`bbd, p`traces
  {
    Search(p.g, p.bbd, p.traces, connected, part, freqThreshold, countThreshold, p.partitioning, p.optimizeSize, p.uncondJumpLength,
           p.maxGrowCopyInsns)
  }

  ghost predicate Sane(q: Search) {
    && Valid(q.g) && |q.bbd| == |q.g.info| && |q.connected| == |q.traces|
    && forall u :: 0 <= u < |q.traces| ==> q.traces[u].first < |q.g.info| && q.traces[u].last < |q.g.info|
  }

  /** The edge e comes from the end of a trace that is not connected yet, in the given partition, and can be fallen through. */
  predicate FromEnd(g: Graph, bbd: seq<Data>, connected: seq<bool>, part: Partition, e: nat) {
    && e < |g.edges| && g.edges[e].src < |bbd| && g.edges[e].src < |g.info|
    && g.edges[e].src != ENTRY && g.edges[e].canFallthru && !g.edges[e].complex
    && var u := bbd[g.edges[e].src].endOfTrace;
      && 0 <= u < |connected| && !connected[u] && g.info[g.edges[e].src].partition == part
  }

  /** The edge e leads to the start of such a trace. */
  predicate ToStart(g: Graph, bbd: seq<Data>, connected: seq<bool>, part: Partition, e: nat) {
    && e < |g.edges| && g.edges[e].dest < |bbd| && g.edges[e].dest < |g.info|
    && g.edges[e].dest != EXIT && g.edges[e].canFallthru && !g.edges[e].complex
    && var u := bbd[g.edges[e].dest].startOfTrace;
      && 0 <= u < |connected| && !connected[u] && g.info[g.edges[e].dest].partition == part
  }

  /** The length of the trace at the other end of e. */
  function TraceLength(bbd: seq<Data>, traces: seq<Trace>, g: Graph, e: nat, back: bool): int {
    if e < |g.edges| && g.edges[e].src < |bbd| && g.edges[e].dest < |bbd| then
      var u := if back then bbd[g.edges[e].src].endOfTrace else bbd[g.edges[e].dest].startOfTrace;
      if 0 <= u < |traces| then traces[u].length else 0
    else 0
  }

  /** The edge e is more probable than f, or as probable and the trace at its other end is longer. */
  predicate Better(q: Search, back: bool, e: nat, f: nat)
    requires e < |q.g.edges| && f < |q.g.edges|
  {
    || q.g.edges[e].probability > q.g.edges[f].probability
    || (q.g.edges[e].probability == q.g.edges[f].probability
        && TraceLength(q.bbd, q.traces, q.g, e, back) > TraceLength(q.bbd, q.traces, q.g, f, back))
  }

  predicate IsCandidate(q: Search, back: bool, e: nat) {
    if back then FromEnd(q.g, q.bbd, q.connected, q.part, e) else ToStart(q.g, q.bbd, q.connected, q.part, e)
  }

  /** The edge at position i is a candidate: no other is better, and none in front of it is as good. */
  ghost predicate BestAt(q: Search, back: bool, list: seq<nat>, n: nat, i: nat) {
    && i < n <= |list| && IsCandidate(q, back, list[i]) && list[i] < |q.g.edges|
    && (forall k :: 0 <= k < n && IsCandidate(q, back, list[k]) && list[k] < |q.g.edges| ==>
          !Better(q, back, list[k], list[i]) && (k < i ==> Better(q, back, list[i], list[k])))
  }

  /** best is the best candidate among the first n edges of a list, and the first of several, and NONE if there is none. */
  ghost predicate BestAmong(q: Search, back: bool, list: seq<nat>, n: nat, best: int)
    requires n <= |list|
  {
    if best == NONE then forall k :: 0 <= k < n ==> !IsCandidate(q, back, list[k])
    else exists i: nat :: BestAt(q, back, list, n, i) && list[i] == best
  }

  /** There is but one. */
  lemma BestOnce(q: Search, back: bool, list: seq<nat>, x: int, y: int)
    requires BestAmong(q, back, list, |list|, x) && BestAmong(q, back, list, |list|, y)
    ensures x == y
  {
    hide IsCandidate, Better;
  }

  /** The loops over the predecessors of the start of a trace (back), and over the successors of the end of one. */
  method BestEdge(p: Layout, connected: seq<bool>, part: Partition, back: bool, b: nat, ghost q: Search) returns (best: int)
    requires Valid(p.g) && b < |p.g.info| == |p.bbd| && |connected| == |p.traces|
    requires q.g == p.g && q.bbd == p.bbd && q.traces == p.traces && q.connected == connected && q.part == part
    ensures var list := if back then p.g.preds[b] else p.g.succs[b];
      BestAmong(q, back, list, |list|, best)
  {
    hide Valid;
    ValidLists(p.g, b);
    ValidShape(p.g);
    var list := if back then p.g.preds[b] else p.g.succs[b];
    best := NONE;
    var bestLen := 0;
    ghost var at := 0;
    for i := 0 to |list|
      invariant if best == NONE then BestAmong(q, back, list, i, NONE)
                else 0 <= best < |p.g.edges| && BestAt(q, back, list, i, at) && list[at] == best
                     && bestLen == TraceLength(p.bbd, p.traces, p.g, best, back)
    {
      var e := list[i];
      var far, not := if back then p.g.edges[e].src else p.g.edges[e].dest, if back then ENTRY else EXIT;
      var u := if back then p.bbd[far].endOfTrace else p.bbd[far].startOfTrace;
      if far != not && p.g.edges[e].canFallthru && !p.g.edges[e].complex && 0 <= u < |connected| && !connected[u]
         && p.g.info[far].partition == part {
        assert IsCandidate(q, back, e);
        if best == NONE || p.g.edges[e].probability > p.g.edges[best].probability
           || (p.g.edges[e].probability == p.g.edges[best].probability && p.traces[u].length > bestLen) {
          BestMore(q, back, list, i, best, at, true);
          best, bestLen, at := e, p.traces[u].length, i;
        } else {
          BestMore(q, back, list, i, best, at, false);
        }
      } else {
        assert !IsCandidate(q, back, e);
      }
    }
  }

  lemma ValidLists(g: Graph, b: nat)
    requires Valid(g) && b < |g.info|
    ensures |g.preds| == |g.succs| == |g.info|
    ensures forall i :: 0 <= i < |g.preds[b]| ==> g.preds[b][i] < |g.edges|
    ensures forall i :: 0 <= i < |g.succs[b]| ==> g.succs[b][i] < |g.edges|
  {}

  lemma BestMore(q: Search, back: bool, list: seq<nat>, i: nat, was: int, at: nat, replaced: bool)
    requires i < |list| && list[i] < |q.g.edges| && IsCandidate(q, back, list[i])
    requires if was == NONE then BestAmong(q, back, list, i, NONE) else BestAt(q, back, list, i, at)
    requires replaced <==> was == NONE || Better(q, back, list[i], list[at])
    ensures BestAt(q, back, list, i + 1, if replaced then i else at)
  {
    hide IsCandidate, TraceLength;
  }

  // ---- connecting ----

  ghost function Free(connected: seq<bool>): set<nat> {
    set u: nat | u < |connected| && !connected[u]
  }

  /** The traces listed start in the given partition. */
  ghost predicate AllIn(s: State, list: seq<nat>, part: Partition) {
    forall i :: 0 <= i < |list| ==>
      list[i] < |s.chains| && |s.chains[list[i]]| > 0 && s.chains[list[i]][0] < |s.g.info|
      && s.g.info[s.chains[list[i]][0]].partition == part
  }

  /** Between the steps, `connected` never loses a trace. */
  predicate Gained(was: seq<bool>, now: seq<bool>) {
    |now| == |was| && forall u :: 0 <= u < |was| && was[u] ==> now[u]
  }

  lemma GainedNone(connected: seq<bool>)
    ensures Gained(connected, connected)
  {}

  lemma GainedMore(was: seq<bool>, now: seq<bool>, u: nat)
    requires Gained(was, now) && u < |now|
    ensures Gained(was, now[u := true])
  {}

  /** What the trace at the other end of a candidate edge is. */
  lemma EdgeBack(s: State, traces: seq<Trace>, connected: seq<bool>, ends: seq<int>, order: seq<nat>, seg: seq<nat>, part: Partition, e: nat)
    requires Joining(s, traces, connected, ends, order, seg) && FromEnd(s.g, s.bbd, connected, part, e)
    ensures var src := s.g.edges[e].src;
      var u := s.bbd[src].endOfTrace;
      && 0 <= u < |traces| && traces[u].last == src && |s.chains[u]| > 0 && Last(s.chains[u]) == src < |s.aux|
      && (Coloured(s) ==> AllIn(s, [u], part))
  {
    var u := s.bbd[s.g.edges[e].src].endOfTrace;
    if Coloured(s) { assert OneColour(s.g, s.chains[u]); }
    hide Strung, Tied, Lined, Once, Valid;
  }

  lemma EdgeOn(s: State, traces: seq<Trace>, connected: seq<bool>, ends: seq<int>, order: seq<nat>, seg: seq<nat>, part: Partition, e: nat)
    requires Joining(s, traces, connected, ends, order, seg) && ToStart(s.g, s.bbd, connected, part, e)
    ensures var dest := s.g.edges[e].dest;
      var u := s.bbd[dest].startOfTrace;
      && 0 <= u < |traces| && traces[u].first == dest && |s.chains[u]| > 0 && s.chains[u][0] == dest && AllIn(s, [u], part)
  {
    hide Strung, Tied, Lined, Once, Valid;
  }

  lemma BestIn(q: Search, back: bool, b: nat, best: int)
    requires Valid(q.g) && b < |q.g.info|
    requires var list := if back then q.g.preds[b] else q.g.succs[b]; BestAmong(q, back, list, |list|, best)
    requires best != NONE
    ensures 0 <= best < |q.g.edges| && q.g.edges[best].src < |q.g.info| && q.g.edges[best].dest < |q.g.info|
    ensures if back then FromEnd(q.g, q.bbd, q.connected, q.part, best) && q.g.edges[best].dest == b
            else ToStart(q.g, q.bbd, q.connected, q.part, best) && q.g.edges[best].src == b
  {
    var list := if back then q.g.preds[b] else q.g.succs[b];
    var i: nat :| BestAt(q, back, list, |list|, i) && list[i] == best;
    hide FromEnd, ToStart, Better;
  }

  /** The best edge, back from or on from block b. */
  ghost function BestOf(q: Search, back: bool, b: nat): (best: int)
    requires Sane(q) && b < |q.g.info|
    ensures var list := if back then q.g.preds[b] else q.g.succs[b]; BestAmong(q, back, list, |list|, best)
  {
    var list := if back then q.g.preds[b] else q.g.succs[b];
    SomeBestIs(q, back, b, list);
    var best :| BestAmong(q, back, list, |list|, best);
    best
  }

  lemma SomeBestIs(q: Search, back: bool, b: nat, list: seq<nat>)
    requires Sane(q) && b < |q.g.info| && list == (if back then q.g.preds[b] else q.g.succs[b])
    ensures exists best :: BestAmong(q, back, list, |list|, best)
  {
    var best := SomeBest(q, back, b, list, |list|);
  }

  lemma {:induction false} SomeBest(q: Search, back: bool, b: nat, list: seq<nat>, n: nat) returns (best: int)
    requires Sane(q) && b < |q.g.info| && list == (if back then q.g.preds[b] else q.g.succs[b]) && n <= |list|
    ensures BestAmong(q, back, list, n, best)
  {
    if n == 0 {
      best := NONE;
    } else {
      hide BestAmong;
      best := SomeBest(q, back, b, list, n - 1);
      ValidLists(q.g, b);
      best := SomeBestMore(q, back, list, n - 1, best);
    }
  }

  lemma SomeBestMore(q: Search, back: bool, list: seq<nat>, n: nat, was: int) returns (best: int)
    requires n < |list| && list[n] < |q.g.edges| && BestAmong(q, back, list, n, was)
    ensures BestAmong(q, back, list, n + 1, best)
  {
    hide Better, IsCandidate;
    if !IsCandidate(q, back, list[n]) {
      best := was;
      BestSame(q, back, list, n, was);
    } else if was == NONE {
      best := list[n];
      BestMore(q, back, list, n, NONE, 0, true);
    } else {
      var at: nat :| BestAt(q, back, list, n, at) && list[at] == was;
      var replaced := Better(q, back, list[n], list[at]);
      BestMore(q, back, list, n, was, at, replaced);
      best := if replaced then list[n] else was;
    }
  }

  lemma BestSame(q: Search, back: bool, list: seq<nat>, n: nat, best: int)
    requires n < |list| && BestAmong(q, back, list, n, best) && !IsCandidate(q, back, list[n])
    ensures BestAmong(q, back, list, n + 1, best)
  {
    hide IsCandidate, Better;
    if best != NONE {
      var i: nat :| BestAt(q, back, list, n, i) && list[i] == best;
      assert BestAt(q, back, list, n + 1, i);
    }
  }

  /** The traces to be put in front of trace t, and t: each is the one whose last block has the best edge to the first block
      of the next, up to trace 0 or to one without such an edge. */
  ghost function InFrontOf(q: Search, t: nat): (seg: seq<nat>)
    requires Sane(q) && t < |q.traces|
    ensures seg != [] && Last(seg) == t
    decreases Free(q.connected)
  {
    if t == 0 then [t]
    else
      var best := BestOf(q, true, q.traces[t].first);
      if best == NONE then [t]
      else
        BestIn(q, true, q.traces[t].first, best);
        var u := q.bbd[q.g.edges[best].src].endOfTrace;
        FreeLess(q.connected, u);
        InFrontOf(q.(connected := q.connected[u := true]), u) + [t]
  }

  lemma InFrontStep(q: Search, t: nat, u: nat)
    requires Sane(q) && 0 < t < |q.traces| && BestOf(q, true, q.traces[t].first) != NONE
    requires u == q.bbd[q.g.edges[BestOf(q, true, q.traces[t].first)].src].endOfTrace && u < |q.connected|
    ensures var r := q.(connected := q.connected[u := true]);
      Sane(r) && InFrontOf(q, t) == InFrontOf(r, u) + [t]
  {
    hide Valid;
    BestIn(q, true, q.traces[t].first, BestOf(q, true, q.traces[t].first));
  }

  lemma InFrontEnd(q: Search, t: nat)
    requires Sane(q) && t < |q.traces| && (t > 0 ==> BestOf(q, true, q.traces[t].first) == NONE)
    ensures InFrontOf(q, t) == [t]
  {}

  /** The trace whose last block has the edge best to the first block of trace t2 is put in front of it. */
  method PutInFront(p: Layout, connected: seq<bool>, best: nat, t2: nat, part: Partition, ghost ends: seq<int>, ghost order: seq<nat>,
                    ghost seg: seq<nat>)
    returns (u: nat, connected': seq<bool>, ghost ends': seq<int>)
    requires Joining(p.S(), p.traces, connected, ends, order, seg) && FromEnd(p.g, p.bbd, connected, part, best)
    requires seg != [] && seg[0] == t2 < |p.traces| && p.traces[t2].first == p.g.edges[best].dest
    requires p.partitioning ==> Coloured(p.S()) && AllIn(p.S(), seg, part)
    modifies p`aux
    ensures old(p.bbd[p.g.edges[best].src].endOfTrace) == u < |connected| && !connected[u] && connected' == connected[u := true]
    ensures Joining(p.S(), p.traces, connected', ends', order, [u] + seg) && Free(connected') < Free(connected)
    ensures p.partitioning ==> Coloured(p.S()) && AllIn(p.S(), [u] + seg, part)
  {
    hide Joining, FromEnd, Coloured, AllIn;
    ghost var s := p.S();
    EdgeBack(s, p.traces, connected, ends, order, seg, part, best);
    NotConnected(p.g, p.bbd, connected, part, best);
    TraceFacts(s, p.traces, connected, ends, order, seg, t2);
    var src := p.g.edges[best].src;
    u := p.bbd[src].endOfTrace;
    p.aux := p.aux[src := p.g.edges[best].dest];
    PrependTrace(s, p.S(), p.traces, connected, ends, order, seg, u);
    FreeLess(connected, u);
    PrependIn(s, p.S(), u, seg, part, p.partitioning);
    ends' := ends[u := p.chains[t2][0]];
    connected' := connected[u := true];
  }

  /** The loop that finds the predecessor traces of trace t. The segment seg ends with t and starts with t2. */
  method FindPredecessors(p: Layout, connected: seq<bool>, t: nat, part: Partition, ghost ends: seq<int>, ghost order: seq<nat>, ghost q: Search)
    returns (t2: nat, connected': seq<bool>, ghost ends': seq<int>, ghost seg: seq<nat>)
    requires Joining(p.S(), p.traces, connected, ends, order, [t]) && t < |connected| == |p.traces|
    requires p.partitioning ==> Coloured(p.S()) && AllIn(p.S(), [t], part)
    requires q == SearchOf(p, connected, part, q.freqThreshold, q.countThreshold) && Sane(q)
    modifies p`aux
    ensures seg == InFrontOf(q, t)
    ensures Joining(p.S(), p.traces, connected', ends', order, seg) && Gained(connected, connected')
    ensures seg != [] && seg[0] == t2 && Last(seg) == t && (t == 0 ==> seg == [0])
    ensures p.partitioning ==> AllIn(p.S(), seg, part)
  {
    hide Joining, FromEnd, BestAmong, Coloured, AllIn, Valid, InFrontOf, BestOf, Sane, Free, Gained;
    t2, connected', ends', seg := t, connected, ends, [t];
    ghost var r := q;
    GainedNone(connected);
    while t2 > 0
      invariant Joining(p.S(), p.traces, connected', ends', order, seg) && Gained(connected, connected')
      invariant |connected'| == |connected| && seg != [] && seg[0] == t2 < |connected| && Last(seg) == t && (t == 0 ==> seg == [0])
      invariant p.partitioning ==> Coloured(p.S()) && AllIn(p.S(), seg, part)
      invariant r == q.(connected := connected') && Sane(r) && InFrontOf(q, t) == InFrontOf(r, t2) + seg[1..]
      decreases Free(connected')
    {
      TraceFacts(p.S(), p.traces, connected', ends', order, seg, t2);
      SizedValid(p.S());
      var first := p.traces[t2].first;
      var best := BestEdge(p, connected', part, true, first, r);
      BestOnce(r, true, r.g.preds[first], best, BestOf(r, true, first));
      if best == NONE {
        InFrontEnd(r, t2);
        break;
      }
      BestIn(r, true, first, best);
      var u;
      u, connected', ends' := PutInFront(p, connected', best, t2, part, ends', order, seg);
      InFrontStep(r, t2, u);
      assert seg == [t2] + seg[1..] && ([u] + seg)[1..] == seg;
      seg := [u] + seg;
      t2 := u;
      GainedMore(connected, r.connected, u);
      r := q.(connected := connected');
    }
    if t2 == 0 { InFrontEnd(r, 0); }
    assert seg == [t2] + seg[1..];
  }

  lemma SizedValid(s: State)
    requires Sized(s)
    ensures Valid(s.g) && Indexed(s.g)
  {}

  lemma NotConnected(g: Graph, bbd: seq<Data>, connected: seq<bool>, part: Partition, e: nat)
    requires FromEnd(g, bbd, connected, part, e)
    ensures e < |g.edges| && g.edges[e].src < |bbd| && 0 <= bbd[g.edges[e].src].endOfTrace < |connected|
    ensures !connected[bbd[g.edges[e].src].endOfTrace]
  {}

  lemma FreeLess(connected: seq<bool>, u: nat)
    requires u < |connected| && !connected[u]
    ensures Free(connected[u := true]) < Free(connected)
  {
    assert u in Free(connected) && u !in Free(connected[u := true]);
  }

  lemma PrependIn(s: State, r: State, u: nat, seg: seq<nat>, part: Partition, partitioning: bool)
    requires r == s.(aux := r.aux) && (partitioning ==> Coloured(s) && AllIn(s, [u], part) && AllIn(s, seg, part))
    ensures partitioning ==> Coloured(r) && AllIn(r, [u] + seg, part)
  {
    hide OneColour;
    if partitioning {
      var now := [u] + seg;
      assert [u][0] == u;
      forall i | 0 <= i < |now|
        ensures now[i] < |s.chains| && |s.chains[now[i]]| > 0 && s.chains[now[i]][0] < |s.g.info|
                && s.g.info[s.chains[now[i]][0]].partition == part
      {
        if i > 0 { assert now[i] == seg[i - 1]; }
      }
    }
  }

  // ---- duplicating a block to connect two traces ----

  lemma SpotsCopied(chains: seq<seq<nat>>, n: nat, t: nat)
    requires Spots(chains, n) && t < |chains|
    ensures Spots(chains[t := chains[t] + [n]], n + 1)
  {
    var c := chains[t];
    var now := chains[t := c + [n]];
    OnceConcat(c, [n]);
    forall u | 0 <= u < |now| ensures |now[u]| > 0 && Once(now[u]) && Below(now[u], n + 1) {
      assert Below(chains[u], n);
    }
    hide Once;
    forall u, v | 0 <= u < v < |now| ensures Disjoint(now[u], now[v]) {
      assert Disjoint(chains[u], chains[v]) && Below(chains[u], n) && Below(chains[v], n);
    }
  }

  lemma InsertedLast(c: seq<nat>, n: nat)
    requires |c| > 0
    ensures Inserted(c, |c| - 1, n) == c + [n]
  {}

  lemma TiedCopied(aux: seq<int>, chains: seq<seq<nat>>, ends: seq<int>, t: nat)
    requires Spots(chains, |aux|) && Tied(aux, chains, ends) && t < |chains|
    ensures Last(chains[t]) < |aux|
    ensures Tied(aux[Last(chains[t]) := |aux|] + [aux[Last(chains[t])]], chains[t := chains[t] + [|aux|]], ends)
  {
    var c := chains[t];
    var last := Last(c);
    assert Below(c, |aux|);
    var ax := aux[last := |aux|] + [aux[last]];
    var now := chains[t := c + [|aux|]];
    InsertedLast(c, |aux|);
    forall v | 0 <= v < |chains| ensures Chain(ax, now[v], ends[v]) {
      assert Chain(aux, chains[v], ends[v]);
      if v == t {
        InsertedChain(aux, c, |c| - 1, ends[v]);
      } else {
        forall i | 0 <= i < |chains[v]| ensures chains[v][i] != last { ApartIn(chains, |aux|, v, t, i, |c| - 1); }
        hide Chain;
        InsertedElsewhere(aux, chains[v], ends[v], last, aux[last]);
      }
    }
  }

  lemma CopiedJoining(s: State, r: State, traces: seq<Trace>, connected: seq<bool>, ends: seq<int>, order: seq<nat>, block: nat, e: nat, t: nat, trace: nat)
    requires Joining(s, traces, connected, ends, order, []) && order != [] && Last(order) == t && t < |traces| == |s.chains| && |s.chains[t]| > 0
    requires Copied(s, r, block, e, t, |s.chains[t]| - 1, trace)
    ensures Joining(r, traces[t := traces[t].(last := |s.aux|)], connected, ends, order, [])
  {
    hide Valid, Strung, Tied, Spots, Once, Lined, Knows;
    LinedLast(connected, ends, order, []);
    SpotsCopied(s.chains, |s.aux|, t);
    TiedCopied(s.aux, s.chains, ends, t);
    InsertedLast(s.chains[t], |s.aux|);
    KnowsCopied(s, r, traces, connected, t);
    StrungCopied(s.chains, ends, order, t, |s.aux|);
    StrungNone(r.chains, ends);
    CopiedSized(s, r, block, e, t, |s.chains[t]| - 1, trace);
  }

  lemma CopiedSized(s: State, r: State, block: nat, e: nat, t: nat, k: nat, trace: nat)
    requires Sized(s) && Copied(s, r, block, e, t, k, trace)
    ensures Sized(r) && r.visited == s.visited + [trace]
  {
    hide Valid;
  }

  lemma KnowsCopied(s: State, r: State, traces: seq<Trace>, connected: seq<bool>, t: nat)
    requires Knows(s, traces, connected) && t < |s.chains| && connected[t] && |s.chains[t]| > 0
    requires r.chains == s.chains[t := s.chains[t] + [|s.aux|]] && |r.bbd| == |s.bbd| + 1 && r.bbd[..|s.bbd|] == s.bbd
    requires r.bbd[|s.bbd|].startOfTrace == NONE && r.bbd[|s.bbd|].endOfTrace == NONE
    ensures Knows(r, traces[t := traces[t].(last := |s.aux|)], connected)
  {
    forall b | 0 <= b < |s.bbd| ensures r.bbd[b] == s.bbd[b] { assert r.bbd[..|s.bbd|][b] == s.bbd[b]; }
  }

  lemma StrungCopied(chains: seq<seq<nat>>, ends: seq<int>, order: seq<nat>, t: nat, n: nat)
    requires Strung(chains, ends, order) && t < |chains| && |chains[t]| > 0
    ensures Strung(chains[t := chains[t] + [n]], ends, order)
  {
    forall i | 0 <= i < |order| ensures Onward(chains[t := chains[t] + [n]], order, i) == Onward(chains, order, i) {}
  }

  /** The copy may be followed by the exit, or by the start of a trace of the partition that is not connected yet. */
  predicate GoodNext(bbd: seq<Data>, g: Graph, connected: seq<bool>, part: Partition, next: int) {
    next == NONE || next == EXIT ||
    (0 <= next < |bbd| && next < |g.info| && 0 <= bbd[next].startOfTrace < |connected| && !connected[bbd[next].startOfTrace]
     && g.info[next].partition == part)
  }

  /** An edge from b that can be fallen through to a block. */
  predicate CanGoOn(g: Graph, b: nat, e: nat) {
    e < |g.edges| && g.edges[e].src == b && EXIT != g.edges[e].dest < |g.info| && g.edges[e].canFallthru && !g.edges[e].complex
  }

  /** Edge e2, out of the block that would be duplicated, makes this worthwhile: it leads to the exit, or to the start of a
      trace that can be connected behind the copy. */
  predicate LeadsOn(q: Search, e2: nat)
    requires Indexed(q.g)
  {
    e2 < |q.g.edges| && var d := q.g.edges[e2].dest;
    d == EXIT
    || (q.g.edges[e2].canFallthru && !q.g.edges[e2].complex
        && d < |q.bbd| && d < |q.g.info| && 0 <= q.bbd[d].startOfTrace < |q.connected| && !q.connected[q.bbd[d].startOfTrace]
        && q.g.info[d].partition == q.part && EdgeFrequency(q.g, e2) >= q.freqThreshold && q.g.edges[e2].count >= q.countThreshold)
  }

  /** The destination of e is worth duplicating: it is a trace of its own, or one of its successors makes it so. */
  predicate Worthwhile(q: Search, e: nat)
    requires Indexed(q.g)
  {
    e < |q.g.edges| && var d := q.g.edges[e].dest;
    d != EXIT && q.g.edges[e].canFallthru && !q.g.edges[e].complex && d < |q.g.succs| && d < |q.bbd|
    && ((0 <= q.bbd[d].startOfTrace < |q.traces| && q.traces[q.bbd[d].startOfTrace].length == 1)
        || exists k :: 0 <= k < |q.g.succs[d]| && LeadsOn(q, q.g.succs[d][k]))
  }

  /** The edge at position i out of b is the most probable of these, and the first of the most probable ones. */
  predicate BestToCopy(q: Search, b: nat, i: nat)
    requires Indexed(q.g) && b < |q.g.succs|
  {
    i < |q.g.succs[b]| && Worthwhile(q, q.g.succs[b][i])
    && (forall j :: 0 <= j < |q.g.succs[b]| && Worthwhile(q, q.g.succs[b][j]) ==>
          var x, y := q.g.edges[q.g.succs[b][j]].probability, q.g.edges[q.g.succs[b][i]].probability;
          if j < i then x < y else x <= y)
  }

  /** The length the trace behind the edge e2 counts for: the exit counts for more than any trace. */
  function LengthBehind(q: Search, e2: nat): int
    requires Sane(q) && e2 < |q.g.edges|
  {
    var d := q.g.edges[e2].dest;
    if d == EXIT then TF.INT_MAX else if 0 <= q.bbd[d].startOfTrace < |q.traces| then q.traces[q.bbd[d].startOfTrace].length else TF.INT_MAX
  }

  /** The edge among the first k out of d that is to follow a copy of d, if any leads on: one to the exit replaces whatever was
      there, another if it is more probable, or as probable and leads to a longer trace. */
  ghost function Behind(q: Search, d: nat, k: nat): (e2: int)
    requires Sane(q) && d < |q.g.info| && k <= |q.g.succs[d]|
    ensures NONE <= e2 < |q.g.edges| && (e2 != NONE ==> LeadsOn(q, e2))
    ensures e2 == NONE <==> forall i :: 0 <= i < k ==> !LeadsOn(q, q.g.succs[d][i])
  {
    if k == 0 then NONE
    else
      var was, e := Behind(q, d, k - 1), q.g.succs[d][k - 1];
      EdgeOf(q.g, d, k - 1);
      if LeadsOn(q, e) && (q.g.edges[e].dest == EXIT || was == NONE || q.g.edges[e].probability > q.g.edges[was].probability
                           || (q.g.edges[e].probability == q.g.edges[was].probability && LengthBehind(q, e) > LengthBehind(q, was)))
      then e else was
  }

  /** What the search for a block to duplicate finds: the edge to the block, and what is to follow its copy. */
  datatype Candidate = Candidate(edge: int, next: int)

  /** What it has found when it has come to position n out of b. */
  ghost function Sought(q: Search, b: nat, n: nat): (c: Candidate)
    requires Sane(q) && b < |q.g.info| && n <= |q.g.succs[b]|
    ensures c.edge != NONE ==> 0 <= c.edge < |q.g.edges| && CanGoOn(q.g, b, c.edge)
    ensures GoodNext(q.bbd, q.g, q.connected, q.part, c.next) && (c.edge == NONE ==> c.next == NONE)
  {
    if n == 0 then Candidate(NONE, NONE)
    else
      var c, e := Sought(q, b, n - 1), q.g.succs[b][n - 1];
      EdgeOf(q.g, b, n - 1);
      var d := q.g.edges[e].dest;
      if d == EXIT || !q.g.edges[e].canFallthru || q.g.edges[e].complex
         || (c.edge != NONE && q.g.edges[e].probability <= q.g.edges[c.edge].probability) then c
      else if 0 <= q.bbd[d].startOfTrace < |q.traces| && q.traces[q.bbd[d].startOfTrace].length == 1 then Candidate(e, c.next)
      else
        var e2 := Behind(q, d, |q.g.succs[d]|);
        if e2 == NONE then c else Candidate(e, q.g.edges[e2].dest)
  }

  /** The search has come to position n out of b. */
  ghost predicate Searched(q: Search, b: nat, n: nat, best: int, at: nat)
    requires Indexed(q.g) && b < |q.g.succs|
  {
    n <= |q.g.succs[b]|
    && if best == NONE then forall j :: 0 <= j < n ==> !Worthwhile(q, q.g.succs[b][j])
       else at < n && best == q.g.succs[b][at] && Worthwhile(q, q.g.succs[b][at])
            && forall j :: 0 <= j < n && Worthwhile(q, q.g.succs[b][j]) ==>
                 var x, y := q.g.edges[q.g.succs[b][j]].probability, q.g.edges[q.g.succs[b][at]].probability;
                 if j < at then x < y else x <= y
  }

  lemma SearchedMore(q: Search, b: nat, n: nat, best: int, at: nat, best': int) returns (at': nat)
    requires Indexed(q.g) && b < |q.g.succs| && n < |q.g.succs[b]| && Searched(q, b, n, best, at) && q.g.succs[b][n] < |q.g.edges|
    requires var e := q.g.succs[b][n];
      best' == if Worthwhile(q, e) && (best == NONE || q.g.edges[e].probability > q.g.edges[q.g.succs[b][at]].probability) then e else best
    ensures Searched(q, b, n + 1, best', at')
  {
    hide Worthwhile;
    at' := if best' == best then at else n;
  }

  /** The edge found is the first of the most probable ones that are worthwhile, and none is found if there is none. */
  lemma {:induction false} SoughtMeaning(q: Search, b: nat, n: nat) returns (at: nat)
    requires Sane(q) && b < |q.g.info| && n <= |q.g.succs[b]|
    ensures Searched(q, b, n, Sought(q, b, n).edge, at)
  {
    hide LeadsOn, Behind, GoodNext, CanGoOn, Worthwhile, Searched;
    if n == 0 {
      at := 0;
      SearchedNone(q, b);
    } else {
      at := SoughtMeaning(q, b, n - 1);
      EdgeOf(q.g, b, n - 1);
      SoughtStep(q, b, n - 1);
      hide Sought;
      if Sought(q, b, n - 1).edge != NONE { SearchedAt(q, b, n - 1, Sought(q, b, n - 1).edge, at); }
      at := SearchedMore(q, b, n - 1, Sought(q, b, n - 1).edge, at, Sought(q, b, n).edge);
    }
  }

  lemma SearchedNone(q: Search, b: nat)
    requires Indexed(q.g) && b < |q.g.succs|
    ensures Searched(q, b, 0, NONE, 0)
  {}

  lemma SearchedAt(q: Search, b: nat, n: nat, best: int, at: nat)
    requires Indexed(q.g) && b < |q.g.succs| && Searched(q, b, n, best, at) && best != NONE
    ensures n <= |q.g.succs[b]| && at < n && best == q.g.succs[b][at]
  {}

  lemma SoughtStep(q: Search, b: nat, n: nat)
    requires Sane(q) && b < |q.g.info| && n < |q.g.succs[b]| && q.g.succs[b][n] < |q.g.edges|
    ensures var e, was := q.g.succs[b][n], Sought(q, b, n).edge;
      Sought(q, b, n + 1).edge ==
        if Worthwhile(q, e) && (was == NONE || q.g.edges[e].probability > q.g.edges[was].probability) then e else was
  {
    hide LeadsOn, GoodNext;
    EdgeOf(q.g, b, n);
  }

  /** That is: there is an edge to copy along if and only if one is the best to copy along, and then it is that one. */
  lemma SoughtBest(q: Search, b: nat)
    requires Sane(q) && b < |q.g.info|
    ensures var e := Sought(q, b, |q.g.succs[b]|).edge;
      if e == NONE then forall i: nat :: !BestToCopy(q, b, i) else exists i: nat :: BestToCopy(q, b, i) && q.g.succs[b][i] == e
  {
    hide Worthwhile, Sought;
    var at := SoughtMeaning(q, b, |q.g.succs[b]|);
    var e := Sought(q, b, |q.g.succs[b]|).edge;
    if e != NONE { assert BestToCopy(q, b, at); }
  }

  /** The successor edge of b whose destination is to be duplicated, and the block behind it that makes this worthwhile. */
  method CopyCandidate(p: Layout, connected: seq<bool>, b: nat, part: Partition, freqThreshold: int, countThreshold: int)
    returns (best: int, next: int)
    requires Sane(SearchOf(p, connected, part, freqThreshold, countThreshold)) && b < |p.g.info|
    ensures Candidate(best, next) == Sought(SearchOf(p, connected, part, freqThreshold, countThreshold), b, |p.g.succs[b]|)
  {
    hide Worthwhile, LeadsOn, GoodNext;
    best, next := NONE, NONE;
    var g := p.g;
    ghost var q := SearchOf(p, connected, part, freqThreshold, countThreshold);
    for i := 0 to |g.succs[b]|
      invariant Candidate(best, next) == Sought(q, b, i)
    {
      var e := g.succs[b][i];
      EdgeOf(g, b, i);
      var d := g.edges[e].dest;
      if d != EXIT && g.edges[e].canFallthru && !g.edges[e].complex
         && (best == NONE || g.edges[e].probability > g.edges[best].probability) {
        var u := p.bbd[d].startOfTrace;
        if 0 <= u < |p.traces| && p.traces[u].length == 1 {
          // A trace that is only one block long: no need to search the successors.
          best := e;
        } else {
          best, next := BehindCandidate(p, connected, e, part, freqThreshold, countThreshold, best, next);
        }
      }
    }
  }

  /** The inner loop, over the successors of the destination of e. */
  method BehindCandidate(p: Layout, connected: seq<bool>, e: nat, part: Partition, freqThreshold: int,
                         countThreshold: int, best0: int, next0: int)
    returns (best: int, next: int)
    requires Sane(SearchOf(p, connected, part, freqThreshold, countThreshold)) && e < |p.g.edges| && p.g.edges[e].dest < |p.g.info|
    ensures var q := SearchOf(p, connected, part, freqThreshold, countThreshold);
      var d := p.g.edges[e].dest;
      var e2 := Behind(q, d, |p.g.succs[d]|);
      if e2 == NONE then best == best0 && next == next0 else best == e && next == p.g.edges[e2].dest
  {
    hide PredsOk, CrossingOk, SuccsOk, EdgeFrequency;
    best, next := best0, next0;
    var g := p.g;
    var d := g.edges[e].dest;
    ghost var q := SearchOf(p, connected, part, freqThreshold, countThreshold);
    var best2, best2Len := NONE, 0;
    for k := 0 to |g.succs[d]|
      invariant best2 == Behind(q, d, k)
      invariant if best2 == NONE then best == best0 && next == next0
                else best == e && next == g.edges[best2].dest && best2Len == LengthBehind(q, best2)
    {
      var e2 := g.succs[d][k];
      EdgeOf(g, d, k);
      var d2 := g.edges[e2].dest;
      var start := p.bbd[d2].startOfTrace;
      if d2 == EXIT
         || (g.edges[e2].canFallthru && !g.edges[e2].complex && 0 <= start < |connected| && !connected[start]
             && g.info[d2].partition == part && EdgeFrequency(g, e2) >= freqThreshold && g.edges[e2].count >= countThreshold
             && (best2 == NONE || g.edges[e2].probability > g.edges[best2].probability
                 || (g.edges[e2].probability == g.edges[best2].probability && p.traces[start].length > best2Len))) {
        best := e;
        best2 := e2;
        best2Len := if d2 != EXIT then p.traces[start].length else TF.INT_MAX;
        next := d2;
      }
    }
  }

  // ---- what follows a trace ----

  /** The destination of the edge sought is copied behind b: with partitioning never, else if it is tiny, or not large and
      the edge frequent enough. */
  ghost predicate ToDuplicate(q: Search, b: nat)
    requires Sane(q) && b < |q.g.info|
  {
    var e := Sought(q, b, |q.g.succs[b]|).edge;
    && !q.partitioning && e != NONE
    && WorthCopying(q.g, q.jumpLength, q.maxGrow, q.g.edges[e].dest,
                    !q.optimizeSize && EdgeFrequency(q.g, e) >= q.freqThreshold && q.g.edges[e].count >= q.countThreshold)
  }

  /** The trace that follows a copy behind b, if any. */
  ghost function BehindCopy(q: Search, b: nat): int
    requires Sane(q) && b < |q.g.info|
  {
    var next := Sought(q, b, |q.g.succs[b]|).next;
    if ToDuplicate(q, b) && next != NONE && next != EXIT && next < |q.bbd| then q.bbd[next].startOfTrace else NONE
  }

  /** The trace that follows trace t: the one to which the best edge out of its last block leads, or else the one behind a
      copy. */
  ghost function Following(q: Search, t: nat): int
    requires Sane(q) && t < |q.traces|
  {
    var b := q.traces[t].last;
    var best := BestOf(q, false, b);
    if best == NONE then BehindCopy(q, b)
    else
      BestIn(q, false, b, best);
      q.bbd[q.g.edges[best].dest].startOfTrace
  }

  /** There is no edge on from trace t, and a block is copied behind it. */
  ghost predicate Copies(q: Search, t: nat)
    requires Sane(q) && t < |q.traces|
  {
    BestOf(q, false, q.traces[t].last) == NONE && ToDuplicate(q, q.traces[t].last)
  }

  /** q becomes r when a block is copied behind trace t, along the edge sought. */
  ghost predicate CopiedBehind(q: Search, r: Search, t: nat)
    requires Sane(q) && t < |q.traces|
  {
    var b := q.traces[t].last;
    var e := Sought(q, b, |q.g.succs[b]|).edge;
    && e != NONE && Duplicated(q.g, r.g, q.g.edges[e].dest, e) && r.bbd == q.bbd + [UNKNOWN.(inTrace := t)]
    && r.traces == q.traces[t := q.traces[t].(last := |q.g.info|)]
  }

  /** q becomes r when what follows trace t is dealt with. */
  ghost predicate Moved(q: Search, r: Search, t: nat) {
    && Sane(q) && t < |q.traces| && NONE <= Following(q, t) < |q.connected|
    && r == q.(g := r.g, bbd := r.bbd, traces := r.traces, connected := r.connected)
    && r.connected == (if Following(q, t) == NONE then q.connected else q.connected[Following(q, t) := true])
    && if Copies(q, t) then CopiedBehind(q, r, t) else r.g == q.g && r.bbd == q.bbd && r.traces == q.traces
  }

  ghost predicate Leads(q: Search, r: Search, t: nat, u: int) {
    Moved(q, r, t) && Following(q, t) == u
  }

  /** The trace to go on from after the first i of those added behind t. */
  function From(t: nat, added: seq<nat>, i: nat): nat
    requires i <= |added|
  {
    if i == 0 then t else added[i - 1]
  }

  /** The traces added behind t follow one another, as the searches say. */
  ghost predicate Links(zs: seq<Search>, t: nat, added: seq<nat>) {
    |zs| == |added| + 1 && forall i :: 0 <= i < |added| ==> Leads(zs[i], zs[i + 1], From(t, added, i), added[i])
  }

  /** And after them comes nothing: there is no edge on from the last of them, and no trace behind a copy. */
  ghost predicate AllLinks(zs: seq<Search>, t: nat, added: seq<nat>, r: Search) {
    Links(zs, t, added) && Leads(zs[|added|], r, From(t, added, |added|), NONE)
  }

  lemma LinksMore(zs: seq<Search>, t: nat, added: seq<nat>, r: Search, u: nat)
    requires Links(zs, t, added) && Leads(zs[|added|], r, From(t, added, |added|), u)
    ensures Links(zs + [r], t, added + [u])
  {
    hide Leads;
    var now, more := zs + [r], added + [u];
    forall i | 0 <= i < |more| ensures Leads(now[i], now[i + 1], From(t, more, i), more[i]) {
      assert now[i] == zs[i] && From(t, more, i) == From(t, added, i);
      if i < |added| { assert now[i + 1] == zs[i + 1]; }
    }
  }

  lemma NowLinked(q: Search, m: Search, r: Search, t: nat, best: int, u: int)
    requires Sane(q) && t < |q.traces| && best == BestOf(q, false, q.traces[t].last) && NONE <= u < |q.connected|
    requires best != NONE ==> 0 <= best < |q.g.edges| && q.g.edges[best].dest < |q.bbd|
    requires u == if best != NONE then q.bbd[q.g.edges[best].dest].startOfTrace else BehindCopy(q, q.traces[t].last)
    requires if best == NONE && ToDuplicate(q, q.traces[t].last) then CopiedBehind(q, m, t) && m == q.(g := m.g, bbd := m.bbd, traces := m.traces)
             else m == q
    requires r == if u == NONE then m else m.(connected := q.connected[u := true])
    ensures Leads(q, r, t, u)
  {
    hide Sane, BestOf, BehindCopy, ToDuplicate, Duplicated, Sought;
  }

  /** When nothing follows trace t, no edge on from its last block leads to the start of a trace that could be connected. */
  lemma NothingFollows(q: Search, t: nat, k: nat)
    requires Sane(q) && t < |q.traces| && Following(q, t) == NONE && k < |q.g.succs[q.traces[t].last]|
    ensures !ToStart(q.g, q.bbd, q.connected, q.part, q.g.succs[q.traces[t].last][k])
  {
    var b := q.traces[t].last;
    var best := BestOf(q, false, b);
    hide BehindCopy, Sane;
    if best != NONE { BestIn(q, false, b, best); }
  }

  /** Trace u, not connected yet, follows at the end of what has been strung together. */
  method AppendTrace(p: Layout, connected: seq<bool>, t: nat, u: nat, ghost ends: seq<int>, ghost order: seq<nat>)
    returns (connected': seq<bool>, ghost ends': seq<int>)
    requires Joining(p.S(), p.traces, connected, ends, order, []) && order != [] && Last(order) == t
    requires t < |p.traces| == |connected| && u < |connected| && !connected[u]
    modifies p`aux
    ensures Joining(p.S(), p.traces, connected', ends', order + [u], []) && Gained(connected, connected')
    ensures Free(connected') < Free(connected) && connected' == connected[u := true]
  {
    hide Joining;
    ghost var s := p.S();
    TraceFacts(s, p.traces, connected, ends, order, [], t);
    TraceFacts(s, p.traces, connected, ends, order, [], u);
    BeginSegment(s, p.traces, connected, ends, order, u);
    p.aux := p.aux[p.traces[t].last := p.traces[u].first];
    connected' := connected[u := true];
    FreeLess(connected, u);
    JoinSegment(s, p.S(), p.traces, connected', ends, order, [u]);
    ends' := ends[t := s.chains[u][0]];
  }

  lemma Appended(s: State, r: State, order0: seq<nat>, order: seq<nat>, u: nat, part: Partition)
    requires r == s.(aux := r.aux) && order0 <= order && AllIn(s, order[|order0|..], part) && AllIn(s, [u], part) && Coloured(s)
    ensures order0 <= order + [u] && AllIn(r, (order + [u])[|order0|..], part) && Coloured(r)
  {
    var now := (order + [u])[|order0|..];
    assert now == order[|order0|..] + [u];
    assert [u][0] == u;
    hide OneColour;
    forall i | 0 <= i < |now|
      ensures now[i] < |s.chains| && |s.chains[now[i]]| > 0 && s.chains[now[i]][0] < |s.g.info|
              && s.g.info[s.chains[now[i]][0]].partition == part
    {
      if i < |order| - |order0| { assert now[i] == order[|order0|..][i]; }
    }
  }

  /** What is fixed when partitioning, which rules out duplication. */
  ghost predicate Fixed(partitioning: bool, s: State, r: State, order0: seq<nat>, order: seq<nat>, part: Partition) {
    && order0 <= order
    && (partitioning ==> r == s.(aux := r.aux) && Coloured(r) && AllIn(r, order[|order0|..], part))
  }

  lemma FixedMore(partitioning: bool, s: State, q: State, r: State, order0: seq<nat>, order: seq<nat>, u: nat, part: Partition)
    requires Fixed(partitioning, s, q, order0, order, part)
    requires partitioning ==> r == q.(aux := r.aux) && AllIn(q, [u], part)
    ensures Fixed(partitioning, s, r, order0, order + [u], part)
  {
    if partitioning { Appended(q, r, order0, order, u, part); }
  }

  /** When the search stops behind trace t, an edge on from its last block leads to the start of a trace that could be
      connected if and only if the last block is a copy just made and the block copied has such an edge. */
  lemma StopsWith(q: Search, r: Search, t: nat)
    requires Leads(q, r, t, NONE) && Valid(r.g)
    ensures t < |r.traces| && r.traces[t].last < |r.g.succs|
    ensures SomeStart(r, r.traces[t].last) <==>
      Copies(q, t) && SomeStart(q, q.g.edges[Sought(q, q.traces[t].last, |q.g.succs[q.traces[t].last]|).edge].dest)
  {
    hide Sane, Valid, BestOf, Sought, BehindCopy, ToDuplicate, StartBehind, Duplicated;
    var b := q.traces[t].last;
    SaneIs(q, t);
    if Copies(q, t) {
      var e := Sought(q, b, |q.g.succs[b]|).edge;
      CopiedStarts(q, r, q.g.edges[e].dest, e, t);
    } else {
      forall k: nat ensures !StartBehind(r, b, k) { NoStartBehind(q, r, t, b, k); }
    }
  }

  lemma NoStartBehind(q: Search, r: Search, t: nat, b: nat, k: nat)
    requires Sane(q) && t < |q.traces| && Following(q, t) == NONE && b == q.traces[t].last
    requires r.g == q.g && r.bbd == q.bbd && r.connected == q.connected && r.part == q.part
    ensures !StartBehind(r, b, k)
  {
    hide Following, ToStart;
    if StartBehind(q, b, k) { NothingFollows(q, t, k); }
  }

  /** The edge at position k out of b leads to the start of a trace that could be connected. */
  ghost predicate StartBehind(q: Search, b: nat, k: nat) {
    b < |q.g.succs| && k < |q.g.succs[b]| && ToStart(q.g, q.bbd, q.connected, q.part, q.g.succs[b][k])
  }

  ghost predicate SomeStart(q: Search, b: nat) {
    exists k: nat :: StartBehind(q, b, k)
  }

  lemma SaneIs(q: Search, t: nat)
    requires Sane(q) && t < |q.traces|
    ensures q.traces[t].last < |q.g.info| == |q.g.succs| == |q.bbd|
  {}

  lemma CopiedStarts(q: Search, r: Search, d: nat, e: nat, t: nat)
    requires Sane(q) && d < |q.g.succs| && e < |q.g.edges| && Duplicated(q.g, r.g, d, e) && r.bbd == q.bbd + [UNKNOWN.(inTrace := t)]
    requires r.connected == q.connected && r.part == q.part
    ensures |r.g.succs| == |q.g.info| + 1 && forall k: nat :: StartBehind(r, |q.g.info|, k) <==> StartBehind(q, d, k)
  {
    ValidLists(q.g, d);
    forall k: nat ensures StartBehind(r, |q.g.info|, k) <==> StartBehind(q, d, k) {
      if k < |q.g.succs[d]| { EdgeOf(q.g, d, k); }
    }
  }

  /** A trace from which the search stops with such a copy: 2 leads to 3, a trace of its own that is connected, and 3 leads
      to 4, which starts a trace that is not. */
  lemma StopsEarly() returns (q: Search, k: nat)
    ensures Sane(q) && |q.traces| > 0 && Following(q, 0) == NONE && Copies(q, 0)
    ensures StartBehind(q, q.g.edges[Sought(q, q.traces[0].last, |q.g.succs[q.traces[0].last]|).edge].dest, k)
  {
    var b := BlockInfo(10000, 0, Unpartitioned, false, false, false, false, false, false, 1, NONE, NONE);
    var to := (s: nat, d: nat) => Edge(s, d, 10000, 0, true, false, false, false);
    var g := Graph([to(0, 2), to(2, 3), to(3, 4), to(4, 3)], [[0], [], [1], [2], [3]], [[], [], [0], [1, 3], [2]],
                   [b, b, b, b.(canDuplicate := true), b]);
    var bbd := [UNKNOWN, UNKNOWN, Data(0, 0, 0, NONE), Data(1, 1, 1, NONE), Data(2, 2, 2, NONE)];
    q := Search(g, bbd, [Trace(2, 2, 0, 1), Trace(3, 3, 0, 1), Trace(4, 4, 0, 1)], [true, true, false], Unpartitioned, 0, 0,
                false, true, 1, 1);
    k := 0;
    assert Sane(q);
    assert !IsCandidate(q, false, 1);
    assert BestOf(q, false, 2) == NONE by { BestOnce(q, false, g.succs[2], BestOf(q, false, 2), NONE); }
    assert Sought(q, 2, 0) == Candidate(NONE, NONE);
    assert Sought(q, 2, 1) == Candidate(1, NONE);
  }

  /** Looking for the trace to follow trace t: along the best edge on from its last block, or else behind a copy. */
  method NextTrace(p: Layout, connected: seq<bool>, t: nat, part: Partition, freqThreshold: int, countThreshold: int,
                   ghost ends: seq<int>, ghost order: seq<nat>, ghost order0: seq<nat>, ghost s0: State, ghost z: Search)
    returns (u: int, ghost m: Search)
    requires Joining(p.S(), p.traces, connected, ends, order, []) && order != [] && Last(order) == t < |p.traces| == |connected|
    requires Fixed(p.partitioning, s0, p.S(), order0, order, part)
    requires z == SearchOf(p, connected, part, freqThreshold, countThreshold)
    modifies p
    ensures Joining(p.S(), p.traces, connected, ends, order, []) && |p.traces| == |connected|
    ensures Fixed(p.partitioning, s0, p.S(), order0, order, part)
    ensures forall was, g :: Same0(was, old(p.traces), g, old(p.g)) ==> Same0(was, p.traces, g, p.g)
    ensures ChainsGrow(old(p.chains), p.chains)
    ensures NONE <= u < |connected| && (u != NONE ==> !connected[u] && (p.partitioning ==> AllIn(p.S(), [u], part)))
    ensures m == SearchOf(p, connected, part, freqThreshold, countThreshold)
    ensures Leads(z, if u == NONE then m else m.(connected := connected[u := true]), t, u)
  {
    hide Joining, ToStart, BestAmong, Fixed, Same0, ChainsGrow, ToDuplicate, Copied, CopiedBehind, BehindCopy, Sane, BestOf, Leads, AllIn;
    TraceFacts(p.S(), p.traces, connected, ends, order, [], t);
    SizedValid(p.S());
    NowSane(p.S(), p.traces, connected, ends, order, [], z);
    var last := p.traces[t].last;
    var best := BestEdge(p, connected, part, false, last, z);
    BestOnce(z, false, z.g.succs[last], best, BestOf(z, false, last));
    if best != NONE {
      BestIn(z, false, last, best);
      EdgeOn(p.S(), p.traces, connected, ends, order, [], part, best);
      StartFree(p.g, p.bbd, connected, part, best);
      u := p.bbd[p.g.edges[best].dest].startOfTrace;
      ChainsGrowRefl(p.chains);
    } else {
      u := DuplicateToConnect(p, connected, t, part, freqThreshold, countThreshold, ends, order, order0, s0, z);
    }
    m := SearchOf(p, connected, part, freqThreshold, countThreshold);
    NowLinked(z, m, if u == NONE then m else m.(connected := connected[u := true]), t, best, u);
  }

  /** The loop that finds the successor traces. */
  method FindSuccessors(p: Layout, connected: seq<bool>, t0: nat, part: Partition, freqThreshold: int, countThreshold: int,
                        ghost ends: seq<int>, ghost order: seq<nat>)
    returns (t: nat, connected': seq<bool>, ghost ends': seq<int>, ghost order': seq<nat>, ghost zs: seq<Search>, ghost added: seq<nat>)
    requires Joining(p.S(), p.traces, connected, ends, order, []) && order != [] && Last(order) == t0
    requires t0 < |p.traces| == |connected| && (p.partitioning ==> Coloured(p.S()))
    modifies p
    ensures Joining(p.S(), p.traces, connected', ends', order', []) && Gained(connected, connected')
    ensures order' != [] && Last(order') == t < |p.traces| == |connected|
    ensures Fixed(p.partitioning, old(p.S()), p.S(), order, order', part)
    ensures Same0(old(p.traces), p.traces, old(p.g), p.g) && ChainsGrow(old(p.chains), p.chains)
    ensures order' == order + added && zs != [] && zs[0] == old(SearchOf(p, connected, part, freqThreshold, countThreshold))
    ensures AllLinks(zs, t0, added, SearchOf(p, connected', part, freqThreshold, countThreshold))
  {
    hide Joining, FromEnd, ToStart, BestAmong, Fixed, Free, Same0, ChainsGrow, ToDuplicate, Copied, CanGoOn, Indexed,
      CopiedBehind, BehindCopy, Sane, BestOf, Links, Leads;
    ghost var s := p.S();
    zs, added := [SearchOf(p, connected, part, freqThreshold, countThreshold)], [];
    NoLinks(zs, t0);
    t, connected', ends', order' := t0, connected, ends, order;
    FixedNone(p.partitioning, s, order, part);
    Same0Refl(p.traces, p.g);
    ChainsGrowRefl(p.chains);
    while true
      invariant ChainsGrow(s.chains, p.chains)
      invariant Joining(p.S(), p.traces, connected', ends', order', []) && Gained(connected, connected')
      invariant order' != [] && Last(order') == t < |p.traces| == |connected|
      invariant Fixed(p.partitioning, s, p.S(), order, order', part)
      invariant Same0(old(p.traces), p.traces, old(p.g), p.g)
      invariant |zs| == |added| + 1 && order' == order + added && Links(zs, t0, added) && t == From(t0, added, |added|)
      invariant zs[0] == old(SearchOf(p, connected, part, freqThreshold, countThreshold))
      invariant zs[|added|] == SearchOf(p, connected', part, freqThreshold, countThreshold)
      decreases Free(connected')
    {
      ghost var z, m := zs[|added|], zs[|added|];
      ghost var chains := p.chains;
      var u;
      u, m := NextTrace(p, connected', t, part, freqThreshold, countThreshold, ends', order', order, s, z);
      ChainsGrowTwice(s.chains, chains, p.chains);
      if u == NONE { break; }
      ghost var q := p.S();
      ghost var before := connected';
      connected', ends' := AppendTrace(p, connected', t, u, ends', order');
      FixedMore(p.partitioning, s, q, p.S(), order, order', u, part);
      LinksMore(zs, t0, added, SearchOf(p, connected', part, freqThreshold, countThreshold), u);
      zs, added := zs + [SearchOf(p, connected', part, freqThreshold, countThreshold)], added + [u];
      order' := order' + [u];
      t := u;
    }
  }

  lemma NoLinks(zs: seq<Search>, t: nat)
    requires |zs| == 1
    ensures Links(zs, t, [])
  {}

  lemma NowSane(s: State, traces: seq<Trace>, connected: seq<bool>, ends: seq<int>, order: seq<nat>, seg: seq<nat>, q: Search)
    requires Joining(s, traces, connected, ends, order, seg) && q.g == s.g && q.bbd == s.bbd && q.traces == traces && q.connected == connected
    ensures Sane(q)
  {
    forall u | 0 <= u < |traces| ensures traces[u].first < |s.g.info| && traces[u].last < |s.g.info| {
      TraceFacts(s, traces, connected, ends, order, seg, u);
    }
    hide Spots, Tied, Strung, Lined, Valid;
  }

  /** Chains only grow at their ends. */
  ghost predicate ChainsGrow(was: seq<seq<nat>>, now: seq<seq<nat>>) {
    |now| == |was| && forall u :: 0 <= u < |was| ==> was[u] <= now[u]
  }

  lemma ChainsGrowRefl(a: seq<seq<nat>>)
    ensures ChainsGrow(a, a)
  {}

  lemma ChainsGrowTwice(a: seq<seq<nat>>, b: seq<seq<nat>>, c: seq<seq<nat>>)
    requires ChainsGrow(a, b) && ChainsGrow(b, c)
    ensures ChainsGrow(a, c)
  {}

  /** The first block of trace 0 stays what it is, and so do the partitions of old blocks. */
  ghost predicate Same0(was: seq<Trace>, now: seq<Trace>, g: Graph, h: Graph) {
    && |now| == |was| && (forall u :: 0 <= u < |was| ==> now[u].first == was[u].first)
    && |g.info| <= |h.info| && (forall b :: 0 <= b < |g.info| ==> h.info[b].partition == g.info[b].partition)
    && (Valid(g) ==> Unfolds(g, h))
  }

  lemma Same0Refl(traces: seq<Trace>, g: Graph)
    ensures Same0(traces, traces, g, g)
  {
    if Valid(g) { UnfoldsSelf(g); }
  }

  lemma Same0Copied(was: seq<Trace>, now: seq<Trace>, g: Graph, h: Graph, k: Graph, block: nat, e: nat, t: nat, n: nat)
    requires Same0(was, now, g, h) && block < |h.succs| && e < |h.edges| && Duplicated(h, k, block, e) && t < |now|
    ensures Same0(was, now[t := now[t].(last := n)], g, k)
  {
    if Valid(g) { UnfoldsDuplicated(g, h, k, block, e); }
    hide Unfolds, Valid;
  }

  lemma FixedNone(partitioning: bool, s: State, order: seq<nat>, part: Partition)
    requires partitioning ==> Coloured(s)
    ensures Fixed(partitioning, s, s, order, order, part)
  {
    assert order[|order|..] == [];
  }

  lemma StartFree(g: Graph, bbd: seq<Data>, connected: seq<bool>, part: Partition, e: nat)
    requires ToStart(g, bbd, connected, part, e)
    ensures e < |g.edges| && g.edges[e].dest < |bbd| && 0 <= bbd[g.edges[e].dest].startOfTrace < |connected|
    ensures !connected[bbd[g.edges[e].dest].startOfTrace]
  {}

  /** Trying to connect traces by duplicating one block behind the last block of trace t. Returns the trace to go on with. */
  method DuplicateToConnect(p: Layout, connected: seq<bool>, t: nat, part: Partition, freqThreshold: int, countThreshold: int,
                            ghost ends: seq<int>, ghost order: seq<nat>, ghost order0: seq<nat>, ghost s0: State, ghost q: Search)
    returns (u: int)
    requires Joining(p.S(), p.traces, connected, ends, order, []) && order != [] && Last(order) == t < |p.traces| == |connected|
    requires Fixed(p.partitioning, s0, p.S(), order0, order, part)
    requires q == SearchOf(p, connected, part, freqThreshold, countThreshold) && Sane(q)
    modifies p`g, p`aux, p`visited, p`bbd, p`chains, p`traces
    ensures Joining(p.S(), p.traces, connected, ends, order, []) && |p.traces| == |connected|
    ensures Fixed(p.partitioning, s0, p.S(), order0, order, part)
    ensures u != NONE ==> !p.partitioning && 0 <= u < |connected| && !connected[u]
    ensures forall was, g :: Same0(was, old(p.traces), g, old(p.g)) ==> Same0(was, p.traces, g, p.g)
    ensures ChainsGrow(old(p.chains), p.chains)
    ensures t < |old(p.chains)| && old(p.chains[t]) != []
    ensures u == BehindCopy(q, q.traces[t].last)
    ensures if ToDuplicate(q, q.traces[t].last)
            then CopiedBehind(q, SearchOf(p, connected, part, freqThreshold, countThreshold), t)
                 && var e := Sought(q, q.traces[t].last, |q.g.succs[q.traces[t].last]|).edge;
                    Copied(old(p.S()), p.S(), q.g.edges[e].dest, e, t, |old(p.chains[t])| - 1, t)
            else p.S() == old(p.S()) && p.traces == old(p.traces)
  {
    hide Joining, Fixed, Valid, Copied, Duplicated, WorthCopying, Sought, Indexed, Sane;
    ghost var s := p.S();
    TraceFacts(s, p.traces, connected, ends, order, [], t);
    SizedValid(s);
    var last := p.traces[t].last;
    var best, next := CopyCandidate(p, connected, last, part, freqThreshold, countThreshold);
    u := NONE;
    ChainsGrowRefl(p.chains);
    if best != NONE && !p.partitioning {
      var dest := p.g.edges[best].dest;
      NotEntry(p.g, best);
      // Tiny blocks are copied always, larger ones only when the edge is traversed frequently enough.
      var copy := p.CopyBbP(dest, !p.optimizeSize && EdgeFrequency(p.g, best) >= freqThreshold && p.g.edges[best].count >= countThreshold);
      if copy {
        ghost var k: nat := |p.chains[t]| - 1;
        var n := p.CopyBb(dest, best, last, t, t, k);
        CopiedJoining(s, p.S(), p.traces, connected, ends, order, dest, best, t, t);
        CopiedGraph(s, p.S(), dest, best, t, k, t);
        TF.CopiedChains(s, p.S(), dest, best, t, k, t);
        InsertedLast(s.chains[t], n);
        forall was, g | Same0(was, p.traces, g, s.g)
          ensures Same0(was, p.traces[t := p.traces[t].(last := n)], g, p.g)
        {
          Same0Copied(was, p.traces, g, s.g, p.g, dest, best, t, n);
        }
        p.traces := p.traces[t := p.traces[t].(last := n)];
        FixedFree(s0, s, p.S(), order0, order, part);
        if next != NONE && next != EXIT {
          u := p.bbd[next].startOfTrace;
        }
      }
    }
  }

  lemma NotEntry(g: Graph, e: nat)
    requires Valid(g) && e < |g.edges|
    ensures g.edges[e].dest != ENTRY
  {}

  lemma CopiedGraph(s: State, r: State, block: nat, e: nat, t: nat, k: nat, trace: nat)
    requires Copied(s, r, block, e, t, k, trace)
    ensures block < |s.g.succs| && e < |s.g.edges| && Duplicated(s.g, r.g, block, e)
    ensures r.bbd == s.bbd + [UNKNOWN.(inTrace := trace)]
  {
    hide Valid, Duplicated;
  }

  lemma FixedFree(s0: State, s: State, r: State, order0: seq<nat>, order: seq<nat>, part: Partition)
    requires Fixed(false, s0, s, order0, order, part)
    ensures Fixed(false, s0, r, order0, order, part)
  {}

  // ---- all traces ----

  /** The partition in which trace u starts. */
  function PartOf(g: Graph, traces: seq<Trace>, u: nat): Partition {
    if u < |traces| && traces[u].first < |g.info| then g.info[traces[u].first].partition else Unpartitioned
  }

  /** One turn of the loop over the traces, at trace t: what was to be seen before it, the traces up to t, those behind it
      with what was to be seen at each, and what is to be seen after it. */
  datatype Round = Round(t: nat, q: Search, seg: seq<nat>, zs: seq<Search>, added: seq<nat>, after: Search)

  /** Trace t was not connected. The traces in front of it are those that lead to it, and those behind it those that follow. */
  ghost predicate Connects(r: Round) {
    && Sane(r.q) && r.t < |r.q.traces| && !r.q.connected[r.t]
    && r.seg == InFrontOf(r.q.(connected := r.q.connected[r.t := true]), r.t)
    && r.zs != [] && r.zs[0] == r.q.(connected := r.zs[0].connected) && |r.zs[0].connected| == |r.q.connected|
    && (forall u :: 0 <= u < |r.q.connected| ==> (r.zs[0].connected[u] <==> r.q.connected[u] || u in r.seg))
    && AllLinks(r.zs, r.t, r.added, r.after)
  }

  lemma RoundIs(r: Round)
    requires Sane(r.q) && r.t < |r.q.traces| && !r.q.connected[r.t]
    requires r.seg == InFrontOf(r.q.(connected := r.q.connected[r.t := true]), r.t)
    requires r.zs != [] && r.zs[0] == r.q.(connected := r.zs[0].connected) && |r.zs[0].connected| == |r.q.connected|
    requires forall u :: 0 <= u < |r.q.connected| ==> (r.zs[0].connected[u] <==> r.q.connected[u] || u in r.seg)
    requires AllLinks(r.zs, r.t, r.added, r.after)
    ensures Connects(r)
  {}

  /** It was the first one of the partition of the pass. In the second pass all traces of the first are connected. */
  ghost predicate InTurn(r: Round, twoPasses: bool, part0: Partition) {
    && |r.q.connected| == |r.q.traces| && r.t < |r.q.traces|
    && (twoPasses ==> PartOf(r.q.g, r.q.traces, r.t) == r.q.part)
    && (forall u :: 0 <= u < r.t ==> r.q.connected[u] || (twoPasses && PartOf(r.q.g, r.q.traces, u) != r.q.part))
    && (r.q.part == part0
        || (twoPasses && r.q.part == (if part0 == Hot then Cold else Hot)
            && forall u :: 0 <= u < |r.q.traces| && PartOf(r.q.g, r.q.traces, u) == part0 ==> r.q.connected[u]))
  }

  /** What is to be seen after the rounds that began with q. */
  function Latest(rs: seq<Round>, q: Search): Search {
    if |rs| == 0 then q else rs[|rs| - 1].after
  }

  /** Each of the rounds that began with q takes up where the one before it ended. */
  ghost predicate Rounds(rs: seq<Round>, q: Search, twoPasses: bool) {
    forall k :: 0 <= k < |rs| ==>
      && Connects(rs[k]) && InTurn(rs[k], twoPasses, q.part)
      && rs[k].q == Latest(rs[..k], q).(part := rs[k].q.part)
  }

  lemma RoundsMore(rs: seq<Round>, q: Search, twoPasses: bool, r: Round)
    requires Rounds(rs, q, twoPasses) && Connects(r) && InTurn(r, twoPasses, q.part) && r.q == Latest(rs, q).(part := r.q.part)
    ensures Rounds(rs + [r], q, twoPasses)
  {
    hide Connects, InTurn, Latest;
    var now := rs + [r];
    forall k | 0 <= k < |now|
      ensures Connects(now[k]) && InTurn(now[k], twoPasses, q.part) && now[k].q == Latest(now[..k], q).(part := now[k].q.part)
    {
      if k < |rs| { assert now[..k] == rs[..k] && now[k] == rs[k]; } else { assert now[..k] == rs && now[k] == r; }
    }
  }

  /** The traces in the order in which the rounds connect them. */
  function OrderOf(rs: seq<Round>): seq<nat> {
    if rs == [] then [] else OrderOf(rs[..|rs| - 1]) + (rs[|rs| - 1].seg + rs[|rs| - 1].added)
  }

  lemma ConnectedSeg(s: State, r: State, traces: seq<Trace>, connected: seq<bool>, now: seq<bool>, ends: seq<int>, ends': seq<int>,
                     order: seq<nat>, seg: seq<nat>)
    requires Joining(s, traces, connected, ends, order, []) && Joining(r, traces, now, ends', order, seg) && Gained(connected, now)
    ensures forall u :: 0 <= u < |connected| ==> (now[u] <==> connected[u] || u in seg)
  {
    assert order + [] == order;
    hide Sized, Spots, Tied, Knows, Strung, Once;
    forall u | 0 <= u < |connected| ensures now[u] <==> connected[u] || u in seg {
      assert u in order + seg <==> u in order || u in seg;
    }
  }

  /** Connecting the traces around trace t: those in front of it, and those behind. */
  method ConnectFrom(p: Layout, connected: seq<bool>, t: nat, part: Partition, freqThreshold: int, countThreshold: int,
                     lastTrace: int, ghost ends: seq<int>, ghost order: seq<nat>)
    returns (last: nat, connected': seq<bool>, ghost ends': seq<int>, ghost order': seq<nat>, ghost r: Round)
    requires Joining(p.S(), p.traces, connected, ends, order, [])
    requires lastTrace == (if order == [] then NONE else Last(order)) && (order == [] ==> t == 0)
    requires t < |p.traces| == |connected| && !connected[t]
    requires p.partitioning ==> Coloured(p.S()) && AllIn(p.S(), [t], part)
    modifies p
    ensures Connects(r) && r.t == t && order' == order + (r.seg + r.added)
    ensures r.q == old(SearchOf(p, connected, part, freqThreshold, countThreshold))
    ensures r.after == SearchOf(p, connected', part, freqThreshold, countThreshold)
    ensures Joining(p.S(), p.traces, connected', ends', order', []) && Gained(connected, connected') && connected'[t]
    ensures order' != [] && Last(order') == last && |p.traces| == |connected'|
    ensures Fixed(p.partitioning, old(p.S()), p.S(), order, order', part) && Same0(old(p.traces), p.traces, old(p.g), p.g)
    ensures ChainsGrow(old(p.chains), p.chains)
  {
    hide Joining, Fixed, AllIn, Coloured, Same0, ChainsGrow, AllLinks, Sane, InFrontOf, Connects;
    ghost var s := p.S();
    ghost var z := SearchOf(p, connected, part, freqThreshold, countThreshold);
    NowSane(s, p.traces, connected, ends, order, [], z);
    BeginSegment(s, p.traces, connected, ends, order, t);
    connected' := connected[t := true];
    // Find the predecessor traces.
    ghost var seg;
    var t2;
    ghost var z' := z.(connected := connected');
    NowSane(s, p.traces, connected', ends, order, [t], z');
    t2, connected', ends', seg := FindPredecessors(p, connected', t, part, ends, order, z');
    ghost var q := p.S();
    ConnectedSeg(s, q, p.traces, connected, connected', ends, ends', order, seg);
    TraceFacts(q, p.traces, connected', ends', order, seg, t);
    FixedSegment(p.partitioning, s, q, order, seg, part);
    if lastTrace >= 0 {
      TraceFacts(q, p.traces, connected', ends', order, seg, t2);
      TraceFacts(q, p.traces, connected', ends', order, seg, lastTrace);
      p.aux := p.aux[p.traces[lastTrace].last := p.traces[t2].first];
      JoinSegment(q, p.S(), p.traces, connected', ends', order, seg);
      ends' := ends'[lastTrace := p.chains[t2][0]];
    } else {
      FirstSegment(q, p.traces, connected', ends', seg);
      assert order + seg == seg;
    }
    ghost var s' := p.S();
    FixedSame(p.partitioning, s, q, s', order, order + seg, part);
    order' := order + seg;
    // Find the successor traces.
    ghost var before := order';
    ghost var zs, added;
    last, connected', ends', order', zs, added := FindSuccessors(p, connected', t, part, freqThreshold, countThreshold, ends', order');
    FixedTwice(p.partitioning, s, s', p.S(), order, before, order', part);
    r := Round(t, z, seg, zs, added, SearchOf(p, connected', part, freqThreshold, countThreshold));
    RoundIs(r);
    assert before + added == order + (seg + added);
  }

  lemma FixedSegment(partitioning: bool, s: State, q: State, order: seq<nat>, seg: seq<nat>, part: Partition)
    requires q == s.(aux := q.aux) && (partitioning ==> Coloured(s) && AllIn(q, seg, part))
    ensures Fixed(partitioning, s, q, order, order + seg, part) && (partitioning ==> Coloured(q))
  {
    assert (order + seg)[|order|..] == seg;
    hide OneColour;
  }

  lemma FixedSame(partitioning: bool, s: State, q: State, r: State, order0: seq<nat>, order: seq<nat>, part: Partition)
    requires Fixed(partitioning, s, q, order0, order, part) && r == q.(aux := r.aux)
    ensures Fixed(partitioning, s, r, order0, order, part) && (partitioning ==> Coloured(r))
  {
    hide OneColour;
  }

  lemma FixedTwice(partitioning: bool, s: State, r: State, q: State, order0: seq<nat>, order1: seq<nat>, order2: seq<nat>, part: Partition)
    requires Fixed(partitioning, s, r, order0, order1, part) && Fixed(partitioning, r, q, order1, order2, part)
    ensures Fixed(partitioning, s, q, order0, order2, part)
  {
    hide OneColour;
    if partitioning {
      var now := order2[|order0|..];
      forall i | 0 <= i < |now|
        ensures now[i] < |q.chains| && |q.chains[now[i]]| > 0 && q.chains[now[i]][0] < |q.g.info|
                && q.g.info[q.chains[now[i]][0]].partition == part
      {
        if i + |order0| < |order1| {
          assert now[i] == order1[|order0|..][i];
        } else {
          assert now[i] == order2[|order1|..][i + |order0| - |order1|];
        }
      }
    }
  }

  /** All traces so far that belong to the current pass are connected; in the second pass all those of the first one too. */
  ghost predicate Progress(g: Graph, traces: seq<Trace>, connected: seq<bool>, twoPasses: bool, pass: int, part0: Partition, part: Partition, i: nat) {
    && |connected| == |traces| && (pass == 1 || (pass == 2 && twoPasses)) && (pass == 1 ==> part == part0)
    && (pass == 2 ==> part == if part0 == Hot then Cold else Hot)
    && (forall u :: 0 <= u < |traces| && u < i && (!twoPasses || PartOf(g, traces, u) == part) ==> connected[u])
    && (pass == 2 ==> forall u :: 0 <= u < |traces| && PartOf(g, traces, u) == part0 ==> connected[u])
  }

  /** With partitioning, what has been strung together is in one partition up to some point and then in the other. */
  ghost predicate Grouped(s: State, order: seq<nat>, split: nat, pass: int, part0: Partition, part: Partition) {
    && split <= |order| && (pass == 1 ==> split == 0) && Coloured(s)
    && AllIn(s, order[..split], part0) && AllIn(s, order[split..], part)
  }

  lemma GroupedMore(s: State, r: State, order0: seq<nat>, order: seq<nat>, split: nat, pass: int, part0: Partition, part: Partition)
    requires Grouped(s, order0, split, pass, part0, part) && Fixed(true, s, r, order0, order, part)
    ensures Grouped(r, order, split, pass, part0, part)
  {
    hide OneColour;
    assert order[..split] == order0[..split];
    var now := order[split..];
    forall i | 0 <= i < |now|
      ensures now[i] < |r.chains| && |r.chains[now[i]]| > 0 && r.chains[now[i]][0] < |r.g.info|
              && r.g.info[r.chains[now[i]][0]].partition == part
    {
      if i + split < |order0| {
        assert now[i] == order0[split..][i];
      } else {
        assert now[i] == order[|order0|..][i + split - |order0|];
      }
    }
  }

  lemma ProgressMore(g: Graph, h: Graph, traces: seq<Trace>, now: seq<Trace>, connected: seq<bool>, connected': seq<bool>,
                     twoPasses: bool, pass: int, part0: Partition, part: Partition, i: nat)
    requires Progress(g, traces, connected, twoPasses, pass, part0, part, i) && Same0(traces, now, g, h) && Gained(connected, connected')
    requires forall u :: 0 <= u < |traces| ==> traces[u].first < |g.info|
    requires i < |traces| && (connected'[i] || (twoPasses && PartOf(g, traces, i) != part))
    ensures Progress(h, now, connected', twoPasses, pass, part0, part, i + 1)
  {}

  /** The first pass is over. */
  lemma ProgressTurn(g: Graph, traces: seq<Trace>, connected: seq<bool>, part0: Partition, part: Partition, i: nat)
    requires Progress(g, traces, connected, true, 1, part0, part, i) && i >= |traces|
    ensures part == part0 && Progress(g, traces, connected, true, 2, part0, if part0 == Hot then Cold else Hot, 0)
  {}

  /** With partitioning, some trace starts in another partition than the first one. */
  ghost predicate TwoParts(p: Layout)
    reads p`g, p`traces
  {
    p.partitioning && exists u :: 0 <= u < |p.traces| && PartOf(p.g, p.traces, u) != PartOf(p.g, p.traces, 0)
  }

  /** Whether the traces are in two partitions. */
  method TwoPasses(p: Layout) returns (twoPasses: bool)
    requires |p.traces| > 0 && forall u :: 0 <= u < |p.traces| ==> p.traces[u].first < |p.g.info|
    ensures (twoPasses <==> TwoParts(p)) && (twoPasses ==> p.partitioning)
    ensures p.partitioning && !twoPasses ==> forall u :: 0 <= u < |p.traces| ==> PartOf(p.g, p.traces, u) == PartOf(p.g, p.traces, 0)
  {
    twoPasses := false;
    if p.partitioning {
      var i := 0;
      while i < |p.traces| && !twoPasses
        invariant i <= |p.traces|
        invariant if twoPasses then TwoParts(p) else forall u :: 0 <= u < i ==> PartOf(p.g, p.traces, u) == PartOf(p.g, p.traces, 0)
        decreases |p.traces| - i
      {
        if p.g.info[p.traces[0].first].partition != p.g.info[p.traces[i].first].partition {
          twoPasses := true;
          assert PartOf(p.g, p.traces, i) != PartOf(p.g, p.traces, 0);
        }
        i := i + 1;
      }
    }
  }

  // ---- partitions along the final order ----

  function Partitions(g: Graph, line: seq<nat>): (ps: seq<Partition>)
    ensures |ps| == |line|
  {
    seq(|line|, i requires 0 <= i < |line| => if line[i] < |g.info| then g.info[line[i]].partition else Unpartitioned)
  }

  /** One partition up to some point, and one from there on. */
  ghost predicate SwitchAt(ps: seq<Partition>, k: nat) {
    && k <= |ps|
    && (forall i :: 0 <= i < k ==> ps[i] == ps[0])
    && (forall i :: k <= i < |ps| ==> ps[i] == ps[|ps| - 1])
  }

  ghost predicate AtMostOneSwitch(ps: seq<Partition>) {
    exists k :: SwitchAt(ps, k)
  }

  lemma {:induction false} LineConcat(chains: seq<seq<nat>>, a: seq<nat>, b: seq<nat>)
    requires forall i :: 0 <= i < |a| ==> a[i] < |chains|
    requires forall i :: 0 <= i < |b| ==> b[i] < |chains|
    ensures forall i :: 0 <= i < |a + b| ==> (a + b)[i] < |chains|
    ensures Line(chains, a + b) == Line(chains, a) + Line(chains, b)
  {
    if a == [] {
      assert a + b == b;
    } else {
      assert (a + b)[1..] == a[1..] + b;
      LineConcat(chains, a[1..], b);
    }
  }

  lemma LineIn(s: State, order: seq<nat>, part: Partition)
    requires Coloured(s) && AllIn(s, order, part)
    ensures forall i :: 0 <= i < |order| ==> order[i] < |s.chains|
    ensures forall i :: 0 <= i < |Line(s.chains, order)| ==>
              Line(s.chains, order)[i] < |s.g.info| && s.g.info[Line(s.chains, order)[i]].partition == part
  {
    var line := Line(s.chains, order);
    forall i | 0 <= i < |line| ensures line[i] < |s.g.info| && s.g.info[line[i]].partition == part {
      assert line[i] in line;
      LineMembers(s.chains, order, line[i]);
      var k :| 0 <= k < |order| && line[i] in s.chains[order[k]];
      assert OneColour(s.g, s.chains[order[k]]);
    }
  }

  lemma GroupedLine(s: State, order: seq<nat>, split: nat, pass: int, part0: Partition, part: Partition)
    requires Grouped(s, order, split, pass, part0, part)
    ensures forall i :: 0 <= i < |order| ==> order[i] < |s.chains|
    ensures AtMostOneSwitch(Partitions(s.g, Line(s.chains, order)))
  {
    hide Coloured, AllIn;
    LineIn(s, order[..split], part0);
    LineIn(s, order[split..], part);
    assert order[..split] + order[split..] == order;
    LineConcat(s.chains, order[..split], order[split..]);
    hide Line;
    SwitchOnce(s.g, Line(s.chains, order[..split]), Line(s.chains, order[split..]), part0, part);
  }

  lemma SwitchOnce(g: Graph, a: seq<nat>, b: seq<nat>, p: Partition, q: Partition)
    requires forall i :: 0 <= i < |a| ==> a[i] < |g.info| && g.info[a[i]].partition == p
    requires forall i :: 0 <= i < |b| ==> b[i] < |g.info| && g.info[b[i]].partition == q
    ensures AtMostOneSwitch(Partitions(g, a + b))
  {
    assert SwitchAt(Partitions(g, a + b), |a|);
  }

  /** verify_hot_cold_block_grouping, for the blocks in their final order: no error iff there is at most one switch. */
  method VerifyHotColdBlockGrouping(g: Graph, line: seq<nat>) returns (err: bool)
    requires forall i :: 0 <= i < |line| ==> line[i] < |g.info| && g.info[line[i]].partition != Unpartitioned
    ensures !err <==> AtMostOneSwitch(Partitions(g, line))
  {
    err := false;
    var switchedSections := false;
    var currentPartition := Unpartitioned;
    ghost var ps := Partitions(g, line);
    ghost var k: nat, bad: nat := 0, 0;
    for i := 0 to |line|
      invariant i == 0 ==> currentPartition == Unpartitioned && !switchedSections && !err
      invariant switchedSections ==> 0 < k < i && ps[k] != ps[0] && forall j :: 0 <= j < k ==> ps[j] == ps[0]
      invariant i > 0 ==> currentPartition == if switchedSections then ps[k] else ps[0]
      invariant !switchedSections ==> !err && forall j :: 0 <= j < i ==> ps[j] == ps[0]
      invariant !err && switchedSections ==> forall j :: k <= j < i ==> ps[j] == ps[k]
      invariant err ==> k < bad < i && ps[bad] != ps[k]
    {
      if currentPartition == Unpartitioned {
        currentPartition := g.info[line[i]].partition;
      }
      if g.info[line[i]].partition != currentPartition {
        if switchedSections {
          err := true;
          bad := i;
        } else {
          switchedSections := true;
          currentPartition := g.info[line[i]].partition;
          k := i;
        }
      }
    }
    if err {
      NoSwitch(ps, k, bad);
    } else {
      assert SwitchAt(ps, if switchedSections then k else |ps|);
    }
  }

  lemma NoSwitch(ps: seq<Partition>, k: nat, bad: nat)
    requires 0 < k < bad < |ps| && ps[k] != ps[0] && ps[bad] != ps[k]
    ensures !AtMostOneSwitch(ps)
  {
    forall m ensures !SwitchAt(ps, m) {}
  }

  // ---- the whole procedure ----

  /** The blocks from start on, along aux. */
  ghost predicate FinalOrder(s: State, traces: seq<Trace>, line: seq<nat>) {
    && traces != [] && line != [] && line[0] == traces[0].first
    && Chain(s.aux, line, NONE) && Once(line)
    && (forall b :: b in line <==> exists u :: 0 <= u < |s.chains| && b in s.chains[u])
  }

  /** What is to be seen at the beginning: no trace is connected. */
  function Beginning(p: Layout, maxEntryFrequency: int, maxEntryCount: int): Search
    reads p`g, p`bbd, p`traces
  {
    var count := if maxEntryCount < TF.INT_MAX / 1000 then Quot(maxEntryCount * DUPLICATION_THRESHOLD, 1000)
                 else Quot(maxEntryCount, 1000) * DUPLICATION_THRESHOLD;
    SearchOf(p, seq(|p.traces|, i => false), PartOf(p.g, p.traces, 0), Quot(maxEntryFrequency * DUPLICATION_THRESHOLD, 1000), count)
  }

  /** Where the loop over the traces is: at trace i of the pass, with `order` strung together. */
  ghost predicate Underway(s: State, traces: seq<Trace>, connected: seq<bool>, order: seq<nat>, split: nat, twoPasses: bool, pass: int,
                           part0: Partition, part: Partition, i: nat, partitioning: bool)
  {
    && Progress(s.g, traces, connected, twoPasses, pass, part0, part, i)
    && (partitioning ==> Grouped(s, order, split, pass, part0, part))
    && (partitioning && !twoPasses ==> forall u :: 0 <= u < |traces| ==> PartOf(s.g, traces, u) == part)
    && (order == [] ==> i == 0 && pass == 1 && PartOf(s.g, traces, 0) == part)
  }

  lemma UnderwayStart(s: State, traces: seq<Trace>, connected: seq<bool>, twoPasses: bool, part0: Partition, partitioning: bool)
    requires |connected| == |traces| && (partitioning ==> Coloured(s)) && part0 == PartOf(s.g, traces, 0)
    requires partitioning && !twoPasses ==> forall u :: 0 <= u < |traces| ==> PartOf(s.g, traces, u) == PartOf(s.g, traces, 0)
    ensures Underway(s, traces, connected, [], 0, twoPasses, 1, part0, part0, 0, partitioning)
  {
    StartProgress(s, traces, connected, [], twoPasses, part0, partitioning);
  }

  lemma UnderwayTurn(s: State, traces: seq<Trace>, connected: seq<bool>, order: seq<nat>, split: nat, part0: Partition, part: Partition,
                     i: nat, partitioning: bool)
    requires Underway(s, traces, connected, order, split, true, 1, part0, part, i, partitioning) && i >= |traces| > 0
    ensures part == part0
    ensures Underway(s, traces, connected, order, |order|, true, 2, part0, if part == Hot then Cold else Hot, 0, partitioning)
  {
    hide Grouped, Progress, PartOf;
    ProgressTurn(s.g, traces, connected, part0, part, i);
    GroupedTurn(s, order, split, part0, part, if part == Hot then Cold else Hot, partitioning);
  }

  /** The rounds so far, which began with z, have led to `order` and to what is to be seen now. */
  ghost predicate Told(rs: seq<Round>, z: Search, twoPasses: bool, order: seq<nat>, now: Search) {
    Rounds(rs, z, twoPasses) && order == OrderOf(rs) && now == Latest(rs, z).(part := now.part)
  }

  lemma ToldStart(z: Search, twoPasses: bool)
    ensures Told([], z, twoPasses, [], z)
  {}

  lemma ToldMore(rs: seq<Round>, z: Search, twoPasses: bool, order: seq<nat>, now: Search, r: Round)
    requires Told(rs, z, twoPasses, order, now) && Connects(r) && InTurn(r, twoPasses, z.part) && r.q == now && r.after.part == now.part
    ensures Told(rs + [r], z, twoPasses, order + (r.seg + r.added), r.after)
  {
    hide Connects, InTurn, Rounds;
    RoundsMore(rs, z, twoPasses, r);
    assert (rs + [r])[..|rs|] == rs;
  }

  lemma ToldTurn(rs: seq<Round>, z: Search, twoPasses: bool, order: seq<nat>, now: Search, part: Partition)
    requires Told(rs, z, twoPasses, order, now)
    ensures Told(rs, z, twoPasses, order, now.(part := part))
  {
    hide Rounds;
  }

  /** connect_traces. At the end aux leads from the first block of trace 0 along all blocks of all traces, each once;
      and with partitioning there is at most one switch between partitions on the way. */
  method ConnectTraces(p: Layout, maxEntryFrequency: int, maxEntryCount: int) returns (ghost line: seq<nat>, ghost rs: seq<Round>)
    requires |p.traces| > 0 && Joining(p.S(), p.traces, seq(|p.traces|, i => false), seq(|p.traces|, i => NONE), [], [])
    requires p.partitioning ==> Coloured(p.S()) && forall u :: 0 <= u < |p.traces| ==> PartOf(p.g, p.traces, u) != Unpartitioned
    modifies p
    ensures Rounds(rs, old(Beginning(p, maxEntryFrequency, maxEntryCount)), old(TwoParts(p)))
    ensures (forall i :: 0 <= i < |OrderOf(rs)| ==> OrderOf(rs)[i] < |p.chains|) && line == Line(p.chains, OrderOf(rs))
    ensures FinalOrder(p.S(), p.traces, line) && p.traces[0].first == old(p.traces[0].first)
    ensures ChainsGrow(old(p.chains), p.chains)
    ensures p.partitioning ==> AtMostOneSwitch(Partitions(p.g, line)) && Coloured(p.S())
    ensures Valid(old(p.g)) ==> Unfolds(old(p.g), p.g)
    ensures Same0(old(p.traces), p.traces, old(p.g), p.g)
  {
    hide Joining, Coloured, Same0, Underway, FinalOrder, AtMostOneSwitch, Partitions, ChainsGrow, Unfolds, Valid, Rounds, OrderOf, TwoParts,
      PartOf, Quot, Line, Told;
    var freqThreshold := Quot(maxEntryFrequency * DUPLICATION_THRESHOLD, 1000);
    var countThreshold := if maxEntryCount < TF.INT_MAX / 1000 then Quot(maxEntryCount * DUPLICATION_THRESHOLD, 1000)
                          else Quot(maxEntryCount, 1000) * DUPLICATION_THRESHOLD;
    var n := |p.traces|;
    var connected := seq(n, i => false);
    ghost var ends := seq(n, i => NONE);
    ghost var order: seq<nat> := [];
    ghost var split: nat := 0;
    rs := [];
    ghost var z := Beginning(p, maxEntryFrequency, maxEntryCount);
    FirstsIn(p.S(), p.traces, connected, ends, order);
    var twoPasses := TwoPasses(p);
    var currentPass := 1;
    var currentPartition := p.g.info[p.traces[0].first].partition;
    ghost var part0 := currentPartition;
    PartOfFirst(p.g, p.traces);
    var lastTrace: int := NONE;
    var i := 0;
    UnderwayStart(p.S(), p.traces, connected, twoPasses, part0, p.partitioning);
    ToldStart(z, twoPasses);
    Same0Refl(p.traces, p.g);
    ChainsGrowRefl(p.chains);
    while i < n || (twoPasses && currentPass == 1)
      invariant 0 <= i <= n == |p.traces| == |connected| && (currentPass == 1 || currentPass == 2)
      invariant Joining(p.S(), p.traces, connected, ends, order, []) && lastTrace == (if order == [] then NONE else Last(order))
      invariant Underway(p.S(), p.traces, connected, order, split, twoPasses, currentPass, part0, currentPartition, i, p.partitioning)
      invariant Same0(old(p.traces), p.traces, old(p.g), p.g) && ChainsGrow(old(p.chains), p.chains)
      invariant Told(rs, z, twoPasses, order, SearchOf(p, connected, currentPartition, freqThreshold, countThreshold))
      decreases 2 - currentPass, n - i
    {
      if i >= n {
        UnderwayTurn(p.S(), p.traces, connected, order, split, part0, currentPartition, i, p.partitioning);
        ghost var was := SearchOf(p, connected, currentPartition, freqThreshold, countThreshold);
        i := 0;
        currentPass := 2;
        currentPartition := if currentPartition == Hot then Cold else Hot;
        ToldTurn(rs, z, twoPasses, order, was, currentPartition);
        split := |order|;
      }
      ghost var chains := p.chains;
      lastTrace, connected, ends, order, rs :=
        ConnectStep(p, connected, i, currentPartition, freqThreshold, countThreshold, lastTrace, twoPasses, ends, order,
                    split, currentPass, old(p.traces), old(p.g), z, rs);
      ChainsGrowTwice(old(p.chains), chains, p.chains);
      i := i + 1;
    }
    Same0Parts(old(p.traces), p.traces, old(p.g), p.g);
    OrderDone(p.S(), p.traces, connected, ends, order, twoPasses, currentPass, part0, currentPartition, i, split, p.partitioning);
    ToldOrder(rs, z, twoPasses, order, SearchOf(p, connected, currentPartition, freqThreshold, countThreshold));
    line := Line(p.chains, order);
    Same0First(old(p.traces), p.traces, old(p.g), p.g);
  }

  lemma ToldOrder(rs: seq<Round>, z: Search, twoPasses: bool, order: seq<nat>, now: Search)
    requires Told(rs, z, twoPasses, order, now)
    ensures Rounds(rs, z, twoPasses) && order == OrderOf(rs)
  {}

  lemma OrderDone(s: State, traces: seq<Trace>, connected: seq<bool>, ends: seq<int>, order: seq<nat>, twoPasses: bool, pass: int,
                  part0: Partition, part: Partition, i: nat, split: nat, partitioning: bool)
    requires Joining(s, traces, connected, ends, order, [])
    requires Underway(s, traces, connected, order, split, twoPasses, pass, part0, part, i, partitioning)
    requires i >= |traces| > 0 && !(twoPasses && pass == 1) && (twoPasses ==> partitioning) && (partitioning ==> part0 != Unpartitioned)
    requires partitioning ==> forall u :: 0 <= u < |traces| ==> PartOf(s.g, traces, u) != Unpartitioned
    ensures (forall i :: 0 <= i < |order| ==> order[i] < |s.chains|) && FinalOrder(s, traces, Line(s.chains, order))
    ensures partitioning ==> AtMostOneSwitch(Partitions(s.g, Line(s.chains, order))) && Coloured(s)
  {
    hide Joining, Progress, Grouped, FinalOrder, AtMostOneSwitch, Partitions, Line, PartOf, Coloured;
    AllConnected(s, traces, connected, twoPasses, pass, part0, part, i);
    SameCount(s, traces, connected, ends, order);
    Finished(s, traces, connected, ends, order);
    if partitioning {
      GroupedLine(s, order, split, pass, part0, part);
      GroupedColoured(s, order, split, pass, part0, part, true);
    }
  }

  lemma SameCount(s: State, traces: seq<Trace>, connected: seq<bool>, ends: seq<int>, order: seq<nat>)
    requires Joining(s, traces, connected, ends, order, [])
    ensures |traces| == |connected|
  {}

  lemma PartOfFirst(g: Graph, traces: seq<Trace>)
    requires |traces| > 0 && traces[0].first < |g.info|
    ensures PartOf(g, traces, 0) == g.info[traces[0].first].partition
  {}

  lemma FirstsIn(s: State, traces: seq<Trace>, connected: seq<bool>, ends: seq<int>, order: seq<nat>)
    requires Joining(s, traces, connected, ends, order, [])
    ensures forall u :: 0 <= u < |traces| ==> traces[u].first < |s.g.info|
    ensures |traces| == |connected|
  {
    forall u | 0 <= u < |traces| ensures traces[u].first < |s.g.info| {
      TraceFacts(s, traces, connected, ends, order, [], u);
    }
    hide Strung, Tied, Lined, Once, Valid;
  }

  lemma StartProgress(s: State, traces: seq<Trace>, connected: seq<bool>, ends: seq<int>, twoPasses: bool, part0: Partition, partitioning: bool)
    requires |connected| == |traces| && (partitioning ==> Coloured(s))
    ensures Progress(s.g, traces, connected, twoPasses, 1, part0, part0, 0)
    ensures partitioning ==> Grouped(s, [], 0, 1, part0, part0)
  {}

  lemma GroupedTurn(s: State, order: seq<nat>, split: nat, part0: Partition, was: Partition, now: Partition, partitioning: bool)
    requires partitioning ==> Grouped(s, order, split, 1, part0, was) && was == part0
    ensures partitioning ==> Grouped(s, order, |order|, 2, part0, now)
  {
    hide Coloured;
    assert order[0..] == order == order[..|order|];
    assert order[|order|..] == [];
  }

  lemma AllConnected(s: State, traces: seq<Trace>, connected: seq<bool>, twoPasses: bool, pass: int, part0: Partition, part: Partition, i: nat)
    requires Progress(s.g, traces, connected, twoPasses, pass, part0, part, i) && i >= |traces| && !(twoPasses && pass == 1)
    requires twoPasses ==> part0 != Unpartitioned && forall u :: 0 <= u < |traces| ==> PartOf(s.g, traces, u) != Unpartitioned
    ensures forall u :: 0 <= u < |traces| ==> connected[u]
  {
    hide PartOf;
  }

  lemma Finished(s: State, traces: seq<Trace>, connected: seq<bool>, ends: seq<int>, order: seq<nat>)
    requires Joining(s, traces, connected, ends, order, []) && order != []
    requires |connected| == |traces| && forall u :: 0 <= u < |traces| ==> connected[u]
    ensures forall i :: 0 <= i < |order| ==> order[i] < |s.chains|
    ensures FinalOrder(s, traces, Line(s.chains, order))
  {
    assert order + [] == order;
    forall i | 0 <= i < |order| ensures order[i] < |s.chains| { assert order[i] in order; }
    LineChain(s.aux, s.chains, ends, order);
    LineOnce(s.chains, |s.aux|, order);
    forall b ensures b in Line(s.chains, order) <==> exists u :: 0 <= u < |s.chains| && b in s.chains[u] {
      LineMembers(s.chains, order, b);
      if exists u :: 0 <= u < |s.chains| && b in s.chains[u] {
        var u :| 0 <= u < |s.chains| && b in s.chains[u];
        assert u in order;
      }
    }
  }

  lemma Same0First(was: seq<Trace>, now: seq<Trace>, g: Graph, h: Graph)
    requires Same0(was, now, g, h)
    ensures |now| == |was| && forall u :: 0 <= u < |was| ==> now[u].first == was[u].first
    ensures Valid(g) ==> Unfolds(g, h)
  {
    hide Valid, Unfolds;
  }

  lemma Same0Parts(was: seq<Trace>, now: seq<Trace>, g: Graph, h: Graph)
    requires Same0(was, now, g, h) && forall u :: 0 <= u < |was| ==> was[u].first < |g.info|
    ensures forall u :: 0 <= u < |was| ==> PartOf(h, now, u) == PartOf(g, was, u)
  {}

  lemma Same0Twice(a: seq<Trace>, b: seq<Trace>, c: seq<Trace>, g: Graph, h: Graph, k: Graph)
    requires Same0(a, b, g, h) && Same0(b, c, h, k) && Valid(h)
    ensures Same0(a, c, g, k)
  {
    hide Unfolds, Valid;
    if Valid(g) { UnfoldsTwice(g, h, k); }
  }

  /** One turn of the loop over the traces. */
  method ConnectStep(p: Layout, connected: seq<bool>, i: nat, part: Partition, freqThreshold: int, countThreshold: int, lastTrace: int,
                     twoPasses: bool, ghost ends: seq<int>, ghost order: seq<nat>, ghost split: nat, ghost pass: int,
                     ghost traces0: seq<Trace>, ghost g0: Graph, ghost z: Search, ghost rs: seq<Round>)
    returns (last: int, connected': seq<bool>, ghost ends': seq<int>, ghost order': seq<nat>, ghost rs': seq<Round>)
    requires i < |p.traces| == |connected| && Joining(p.S(), p.traces, connected, ends, order, [])
    requires lastTrace == (if order == [] then NONE else Last(order))
    requires Underway(p.S(), p.traces, connected, order, split, twoPasses, pass, z.part, part, i, p.partitioning)
    requires Same0(traces0, p.traces, g0, p.g)
    requires Told(rs, z, twoPasses, order, SearchOf(p, connected, part, freqThreshold, countThreshold))
    modifies p
    ensures Told(rs', z, twoPasses, order', SearchOf(p, connected', part, freqThreshold, countThreshold))
    ensures Joining(p.S(), p.traces, connected', ends', order', []) && |p.traces| == |connected'| == |old(p.traces)|
    ensures order' != [] && last == Last(order')
    ensures Underway(p.S(), p.traces, connected', order', split, twoPasses, pass, z.part, part, i + 1, p.partitioning)
    ensures Same0(traces0, p.traces, g0, p.g) && ChainsGrow(old(p.chains), p.chains)
  {
    hide Joining, Fixed, AllIn, Same0, Progress, Grouped, PartOf, ChainsGrow, Connects, InTurn, Told;
    ChainsGrowRefl(p.chains);
    TraceFacts(p.S(), p.traces, connected, ends, order, [], i);
    FirstsIn(p.S(), p.traces, connected, ends, order);
    NoneConnected(p.S(), p.traces, connected, ends, order);
    PartIs(p.S(), p.traces, i, part);
    Same0Refl(p.traces, p.g);
    last, connected', ends', order', rs' := lastTrace, connected, ends, order, rs;
    ghost var s := p.S();
    ghost var traces := p.traces;
    ghost var now := SearchOf(p, connected, part, freqThreshold, countThreshold);
    if !connected[i] && !(twoPasses && p.g.info[p.traces[i].first].partition != part) {
      GroupedColoured(s, order, split, pass, z.part, part, p.partitioning);
      ghost var r;
      last, connected', ends', order', r := ConnectFrom(p, connected, i, part, freqThreshold, countThreshold, lastTrace, ends, order);
      if p.partitioning { GroupedMore(s, p.S(), order, order', split, pass, z.part, part); }
      Same0Twice(traces0, traces, p.traces, g0, s.g, p.g);
      ItsTurn(r, twoPasses, pass, z.part);
      ToldMore(rs, z, twoPasses, order, now, r);
      rs' := rs + [r];
    }
    Same0Parts(traces, p.traces, s.g, p.g);
    ProgressMore(s.g, p.g, traces, p.traces, connected, connected', twoPasses, pass, z.part, part, i);
  }

  lemma ItsTurn(r: Round, twoPasses: bool, pass: int, part0: Partition)
    requires Progress(r.q.g, r.q.traces, r.q.connected, twoPasses, pass, part0, r.q.part, r.t) && r.t < |r.q.traces|
    requires twoPasses ==> PartOf(r.q.g, r.q.traces, r.t) == r.q.part
    ensures InTurn(r, twoPasses, part0)
  {
    hide PartOf;
  }

  lemma NoneConnected(s: State, traces: seq<Trace>, connected: seq<bool>, ends: seq<int>, order: seq<nat>)
    requires Joining(s, traces, connected, ends, order, [])
    ensures order == [] ==> forall u :: 0 <= u < |connected| ==> !connected[u]
  {}

  lemma PartIs(s: State, traces: seq<Trace>, i: nat, part: Partition)
    requires i < |traces| == |s.chains| && |s.chains[i]| > 0 && traces[i].first == s.chains[i][0] < |s.g.info|
    ensures PartOf(s.g, traces, i) == s.g.info[traces[i].first].partition
    ensures PartOf(s.g, traces, i) == part ==> AllIn(s, [i], part)
  {}

  lemma GroupedColoured(s: State, order: seq<nat>, split: nat, pass: int, part0: Partition, part: Partition, partitioning: bool)
    requires partitioning ==> Grouped(s, order, split, pass, part0, part)
    ensures partitioning ==> Coloured(s)
  {}

  // ---- reorder_basic_blocks ----

  /** The state after find_traces is one with nothing connected. */
  lemma SettledJoining(s: State, g0: Graph, traces: seq<Trace>, connected: seq<bool>, ends: seq<int>)
    requires TF.Settled(s, g0, traces) && |connected| == |ends| == |traces|
    requires forall u :: 0 <= u < |traces| ==> !connected[u] && ends[u] == NONE
    ensures Joining(s, traces, connected, ends, [], [])
  {
    hide ClosedBut, Queued, Coloured, SinceStart, Loose, Valid, Chain, Flows;
    forall u | 0 <= u < |traces| ensures EndOf(s, traces, u) && Chain(s.aux, s.chains[u], NONE) {
      assert Chain(s.aux, s.chains[u], if u == |traces| then NONE else NONE);
    }
    assert Spots(s.chains, |s.aux|) by {
      hide TF.Settled, Chained, Once;
      forall u | 0 <= u < |s.chains| ensures |s.chains[u]| > 0 && Once(s.chains[u]) && Below(s.chains[u], |s.aux|) {
        assert EndOf(s, traces, u);
        Distinct(s, u);
        forall i | 0 <= i < |s.chains[u]| ensures s.chains[u][i] < |s.aux| { InChain(s, u, i); }
      }
      forall u, v | 0 <= u < v < |s.chains| ensures Disjoint(s.chains[u], s.chains[v]) {
        forall i, j | 0 <= i < |s.chains[u]| && 0 <= j < |s.chains[v]| ensures s.chains[u][i] != s.chains[v][j] { Apart(s, u, v, i); }
      }
    }
    var none: seq<nat> := [];
    assert none + none == none;
    hide Spots, Owned;
  }

  /** The blocks as cfg_layout_finalize finds them, along aux. */
  method Linearize(p: Layout, first: nat, ghost line: seq<nat>) returns (blocks: seq<nat>)
    requires line != [] && line[0] == first && Chain(p.aux, line, NONE)
    ensures blocks == line
  {
    blocks := [];
    var bb: int := first;
    while bb != NONE
      invariant blocks <= line && bb == if blocks == line then NONE else line[|blocks|]
      decreases |line| - |blocks|
    {
      blocks := blocks + [bb];
      bb := p.aux[bb];
    }
  }

  /** How the traces were found, from state s to traces, and connected. */
  datatype Account = Account(s: State, traces: seq<Trace>, log: seq<TF.Record>, frequency: int, count: int, q: Search, two: bool,
                             rs: seq<Round>)

  ghost predicate ComesAbout(graph: Graph, a: Account) {
    && TF.Logged(a.log, a.s.chains, a.traces)
    && Valid(graph) && TF.EntryMost(graph, |graph.succs[ENTRY]|, a.frequency, a.count)
    && TF.InRounds(a.log, a.frequency, a.count, TF.N_ROUNDS - 1)
    && a.q.g == a.s.g && a.q.bbd == a.s.bbd && a.q.traces == a.traces
    && a.q.freqThreshold == Quot(a.frequency * DUPLICATION_THRESHOLD, 1000)
    && Rounds(a.rs, a.q, a.two)
  }

  lemma ItComesAbout(graph: Graph, a: Account)
    requires TF.Logged(a.log, a.s.chains, a.traces) && Valid(graph) && TF.EntryMost(graph, |graph.succs[ENTRY]|, a.frequency, a.count)
    requires TF.InRounds(a.log, a.frequency, a.count, TF.N_ROUNDS - 1) && Rounds(a.rs, a.q, a.two)
    requires a.q.g == a.s.g && a.q.bbd == a.s.bbd && a.q.traces == a.traces && a.q.freqThreshold == Quot(a.frequency * DUPLICATION_THRESHOLD, 1000)
    ensures ComesAbout(graph, a)
  {}

  /** reorder_basic_blocks: find_traces, connect_traces, and the check of the grouping, which finds no error. The final
      order begins with the first block of the first trace, which is the one behind the entry if the entry leads nowhere
      else, and has every reachable block of the function, and every copy, exactly once. */
  method ReorderBasicBlocks(graph: Graph, jumpLength: int, maxGrow: int, forSize: bool, partitioning: bool)
    returns (p: Layout, line: seq<nat>, err: bool, ghost how: Account)
    requires Valid(graph) && !Flows(graph, ENTRY, EXIT) && graph.succs[ENTRY] != []
    requires partitioning ==> AllHotOrCold(graph)
    ensures FinalOrder(p.S(), p.traces, line)
    ensures TF.OnlyBehind(graph) ==> line[0] == TF.AfterEntry(graph)
    ensures forall b: nat :: TF.Reachable(graph, b) ==> b == ENTRY || b == EXIT || b in line
    ensures partitioning ==> AtMostOneSwitch(Partitions(p.g, line))
    ensures !err
    ensures Unfolds(graph, p.g)
    ensures ComesAbout(graph, how) && (forall i :: 0 <= i < |OrderOf(how.rs)| ==> OrderOf(how.rs)[i] < |p.chains|)
    ensures line == Line(p.chains, OrderOf(how.rs))
  {
    hide TF.Settled, TF.Reachable, TF.InOneTrace, Flows, Joining, Base, AtMostOneSwitch, FinalOrder, AllHotOrCold, Coloured, PartOf, Unfolds, Valid,
      Same0, TF.OnlyBehind, ChainsGrow, TF.Logged, TF.EntryMost, TF.InRounds, Rounds, Line, OrderOf, TwoParts, Quot, ComesAbout;
    p := new Layout(graph, jumpLength, maxGrow, forSize, partitioning);
    var maxEntryFrequency, maxEntryCount;
    ghost var log;
    maxEntryFrequency, maxEntryCount, log := TF.FindTraces(p, graph);
    ghost var s := p.S();
    ghost var traces := p.traces;
    SomeTrace(s, graph, traces);
    SettledColours(s, graph, traces);
    SettledJoining(s, graph, traces, seq(|traces|, i => false), seq(|traces|, i => NONE));
    SettledValid(s, graph, traces);
    ghost var q := Beginning(p, maxEntryFrequency, maxEntryCount);
    ghost var two := TwoParts(p);
    ghost var order, rs := ConnectTraces(p, maxEntryFrequency, maxEntryCount);
    how := Account(s, traces, log, maxEntryFrequency, maxEntryCount, q, two, rs);
    ItComesAbout(graph, how);
    UnfoldsTwice(graph, s.g, p.g);
    OrderFacts(p.S(), p.traces, order);
    line := Linearize(p, p.traces[0].first, order);
    err := false;
    if partitioning {
      LineColours(s, p.S(), graph, traces, p.traces, line);
      err := VerifyHotColdBlockGrouping(p.g, line);
    }
    forall b: nat | TF.Reachable(graph, b) && b != ENTRY && b != EXIT ensures b in line {
      StillIn(s, p.S(), p.traces, line, b);
    }
  }

  lemma OrderFacts(s: State, traces: seq<Trace>, line: seq<nat>)
    requires FinalOrder(s, traces, line)
    ensures traces != [] && line != [] && line[0] == traces[0].first && Chain(s.aux, line, NONE)
  {}

  /** With partitioning every block of the final order is hot or cold. */
  lemma LineColours(s: State, r: State, g0: Graph, was: seq<Trace>, now: seq<Trace>, line: seq<nat>)
    requires TF.Settled(s, g0, was) && FinalOrder(r, now, line) && ChainsGrow(s.chains, r.chains) && Coloured(r)
    requires Same0(was, now, s.g, r.g) && forall u :: 0 <= u < |was| ==> PartOf(s.g, was, u) != Unpartitioned
    ensures forall i :: 0 <= i < |line| ==> line[i] < |r.g.info| && r.g.info[line[i]].partition != Unpartitioned
  {
    hide Unfolds, Valid;
    forall i | 0 <= i < |line| ensures line[i] < |r.g.info| && r.g.info[line[i]].partition != Unpartitioned {
      assert line[i] in line;
      var u :| 0 <= u < |r.chains| && line[i] in r.chains[u];
      assert OneColour(r.g, r.chains[u]);
      ChainColour(s, r, g0, was, u);
    }
  }

  lemma ChainColour(s: State, r: State, g0: Graph, was: seq<Trace>, u: nat)
    requires TF.Settled(s, g0, was) && ChainsGrow(s.chains, r.chains) && u < |r.chains|
    requires |s.g.info| <= |r.g.info| && forall b :: 0 <= b < |s.g.info| ==> r.g.info[b].partition == s.g.info[b].partition
    requires PartOf(s.g, was, u) != Unpartitioned
    ensures r.chains[u] != [] && r.chains[u][0] < |r.g.info| && r.g.info[r.chains[u][0]].partition != Unpartitioned
  {
    TF.SettledEnd(s, g0, was, u);
    assert s.chains[u] <= r.chains[u];
    hide TF.Settled;
  }

  /** A block of a trace is in the final order. */
  lemma StillIn(s: State, r: State, traces: seq<Trace>, line: seq<nat>, b: nat)
    requires TF.InOneTrace(s, b) && ChainsGrow(s.chains, r.chains) && FinalOrder(r, traces, line)
    ensures b in line
  {
    var u :| 0 <= u < |s.chains| && b in s.chains[u];
    assert s.chains[u] <= r.chains[u];
    assert b in r.chains[u];
  }

  /** The destination of an edge from the entry is in a trace. */
  lemma SomeTrace(s: State, g0: Graph, traces: seq<Trace>)
    requires TF.Settled(s, g0, traces) && Valid(g0) && g0.succs[ENTRY] != [] && !Flows(g0, ENTRY, EXIT)
    requires forall b: nat :: TF.Reachable(g0, b) ==> b == ENTRY || b == EXIT || TF.InOneTrace(s, b)
    ensures |traces| > 0
  {
    EdgeOf(g0, ENTRY, 0);
    var e := g0.succs[ENTRY][0];
    LeavesFlows(g0, ENTRY, e);
    var d := g0.edges[e].dest;
    assert TF.WalkTo(g0, [ENTRY, d], d);
    assert TF.Reachable(g0, d);
  }

  lemma SettledValid(s: State, g0: Graph, traces: seq<Trace>)
    requires TF.Settled(s, g0, traces)
    ensures Valid(s.g)
  {}

  lemma SettledColours(s: State, g0: Graph, traces: seq<Trace>)
    requires TF.Settled(s, g0, traces)
    ensures Coloured(s)
    ensures AllHotOrCold(g0) ==> forall u :: 0 <= u < |traces| ==> PartOf(s.g, traces, u) != Unpartitioned
  {
    forall u | 0 <= u < |traces| ensures 1 < traces[u].first < |s.g.info| {
      assert EndOf(s, traces, u);
      InChain(s, u, 0);
    }
    hide Owned, Queued, Coloured, SinceStart, Loose, Valid, ClosedBut, Chained;
  }
}
