/** Forming the traces: find_traces of bb-reorder.c and what it calls. */
module TraceFormation {
  import opened FlowGraphs
  import opened Layouts

  const N_ROUNDS: nat := 5
  const BRANCH_THRESHOLD := [400, 200, 100, 0, 0]
  const EXEC_THRESHOLD := [500, 200, 50, 0, 0]
  const INT_MAX := 0x7FFF_FFFF
  const HALF_INT_MIN := -0x4000_0000

  /** What decides between the blocks of a round. */
  datatype Thresholds = Thresholds(branch: int, exec: int, count: int, round: nat, rounds: nat)

  /** The block may start a trace in this round: it is the last one, or the block is executed often enough. */
  predicate InSeason(g: Graph, b: nat, th: Thresholds)
    requires b < |g.info|
  {
    th.round + 1 >= th.rounds || (g.info[b].frequency >= th.exec && g.info[b].count >= th.count && !g.info[b].never)
  }

  /** push_to_next_round_p */
  method PushToNextRoundP(g: Graph, b: nat, th: Thresholds) returns (push: bool)
    requires b < |g.info|
    ensures push == !InSeason(g, b, th)
  {
    var thereExistsAnotherRound := th.round < th.rounds - 1;
    var blockNotHotEnough := g.info[b].frequency < th.exec || g.info[b].count < th.count || g.info[b].never;
    push := thereExistsAnotherRound && blockNotHotEnough;
  }

  // ---- bb_to_key ----

  /** The edge makes its destination a better start: its source ends a trace, or it closes a loop. */
  predicate Promotes(g: Graph, bbd: seq<Data>, e: nat)
    requires e < |g.edges| && Indexed(g) && |bbd| == |g.info|
  {
    (g.edges[e].src != ENTRY && bbd[g.edges[e].src].endOfTrace >= 0) || g.edges[e].dfsBack
  }

  /** priority is the greatest frequency of the first n edges into b that promote it, or 0. */
  ghost predicate Priority(g: Graph, bbd: seq<Data>, b: nat, n: nat, priority: int)
    requires Valid(g) && |bbd| == |g.info| && b < |g.info| && n <= |g.preds[b]|
  {
    && (forall i :: 0 <= i < n && Promotes(g, bbd, g.preds[b][i]) ==> EdgeFrequency(g, g.preds[b][i]) <= priority)
    && priority >= 0
    && (priority > 0 ==> exists i :: 0 <= i < n && Promotes(g, bbd, g.preds[b][i]) && EdgeFrequency(g, g.preds[b][i]) == priority)
  }

  /** The key of b: cold blocks come last; a block with a promoting edge comes before all without, and then by the most
      frequent such edge; and frequent blocks come before others. */
  ghost predicate IsKey(g: Graph, bbd: seq<Data>, b: nat, key: int)
    requires Valid(g) && |bbd| == |g.info| && b < |g.info|
  {
    if g.info[b].partition == Cold || g.info[b].never then key == BB_FREQ_MAX
    else exists priority :: Priority(g, bbd, b, |g.preds[b]|, priority) &&
           key == -g.info[b].frequency - (if priority != 0 then 100 * BB_FREQ_MAX + 100 * priority else 0)
  }

  lemma {:induction false} HasPriority(g: Graph, bbd: seq<Data>, b: nat, n: nat)
    requires Valid(g) && |bbd| == |g.info| && b < |g.info| && n <= |g.preds[b]|
    ensures exists priority :: Priority(g, bbd, b, n, priority)
  {
    if n == 0 {
      assert Priority(g, bbd, b, 0, 0);
    } else {
      HasPriority(g, bbd, b, n - 1);
      var x :| Priority(g, bbd, b, n - 1, x);
      PredOf(g, b, n - 1);
      var e := g.preds[b][n - 1];
      hide Valid, Promotes;
      assert Priority(g, bbd, b, n, if Promotes(g, bbd, e) && EdgeFrequency(g, e) > x then EdgeFrequency(g, e) else x);
    }
  }

  ghost function KeyOf(g: Graph, bbd: seq<Data>, b: nat): (key: int)
    requires Valid(g) && |bbd| == |g.info| && b < |g.info|
    ensures IsKey(g, bbd, b, key)
  {
    HasKey(g, bbd, b);
    var key :| IsKey(g, bbd, b, key);
    key
  }

  lemma HasKey(g: Graph, bbd: seq<Data>, b: nat)
    requires Valid(g) && |bbd| == |g.info| && b < |g.info|
    ensures exists key :: IsKey(g, bbd, b, key)
  {
    if g.info[b].partition == Cold || g.info[b].never {
      assert IsKey(g, bbd, b, BB_FREQ_MAX);
    } else {
      HasPriority(g, bbd, b, |g.preds[b]|);
      var x :| Priority(g, bbd, b, |g.preds[b]|, x);
      assert IsKey(g, bbd, b, -g.info[b].frequency - (if x != 0 then 100 * BB_FREQ_MAX + 100 * x else 0));
    }
  }

  /** There is but one key. */
  lemma OneKey(g: Graph, bbd: seq<Data>, b: nat, x: int, y: int)
    requires Valid(g) && |bbd| == |g.info| && b < |g.info| && IsKey(g, bbd, b, x) && IsKey(g, bbd, b, y)
    ensures x == y
  {}

  /** It depends on no more of bbd than on what ends the traces. */
  lemma IsKeySame(g: Graph, bbd: seq<Data>, now: seq<Data>, b: nat, key: int)
    requires Valid(g) && |bbd| == |now| == |g.info| && b < |g.info| && IsKey(g, bbd, b, key)
    requires forall x :: 0 <= x < |bbd| ==> now[x].endOfTrace == bbd[x].endOfTrace
    ensures IsKey(g, now, b, key)
  {
    if g.info[b].partition != Cold && !g.info[b].never {
      var x :| Priority(g, bbd, b, |g.preds[b]|, x) && key == -g.info[b].frequency - (if x != 0 then 100 * BB_FREQ_MAX + 100 * x else 0);
      assert Priority(g, now, b, |g.preds[b]|, x) by {
        forall i | 0 <= i < |g.preds[b]|
          ensures g.preds[b][i] < |g.edges| && (Promotes(g, bbd, g.preds[b][i]) <==> Promotes(g, now, g.preds[b][i]))
        {
          PredOf(g, b, i);
        }
        hide Valid, Promotes;
      }
    }
  }

  /** bb_to_key */
  method BbToKey(p: Layout, b: nat) returns (key: int)
    requires Sized(p.S()) && b < |p.g.info|
    ensures IsKey(p.g, p.bbd, b, key) && key == KeyOf(p.g, p.bbd, b)
  {
    key := CountKey(p, b);
    OneKey(p.g, p.bbd, b, key, KeyOf(p.g, p.bbd, b));
  }

  method CountKey(p: Layout, b: nat) returns (key: int)
    requires Sized(p.S()) && b < |p.g.info|
    ensures IsKey(p.g, p.bbd, b, key)
  {
    var g := p.g;
    if g.info[b].partition == Cold || g.info[b].never {
      return BB_FREQ_MAX;
    }
    var priority := 0;
    for i := 0 to |g.preds[b]|
      invariant Priority(g, p.bbd, b, i, priority)
    {
      var e := g.preds[b][i];
      PredOf(g, b, i);
      if (g.edges[e].src != ENTRY && p.bbd[g.edges[e].src].endOfTrace >= 0) || g.edges[e].dfsBack {
        var freq := EdgeFrequency(g, e);
        if freq > priority { priority := freq; }
      }
    }
    key := -g.info[b].frequency - (if priority != 0 then 100 * BB_FREQ_MAX + 100 * priority else 0);
  }

  // ---- choosing the successor ----

  /** What a decision about a trace depends on: the graph, what is visited, which traces blocks start, and the options. */
  datatype View = View(g: Graph, visited: seq<nat>, starts: seq<int>, partitioning: bool, optimizeSize: bool, jumpLength: int, maxGrow: int)

  ghost predicate Shows(v: View, g: Graph, visited: seq<nat>, bbd: seq<Data>) {
    v.g == g && v.visited == visited && |v.starts| == |bbd| && forall b :: 0 <= b < |bbd| ==> v.starts[b] == bbd[b].startOfTrace
  }

  ghost predicate Sees(p: Layout, v: View)
    reads p`g, p`visited, p`bbd
  {
    && Shows(v, p.g, p.visited, p.bbd)
    && v.partitioning == p.partitioning && v.optimizeSize == p.optimizeSize
    && v.jumpLength == p.uncondJumpLength && v.maxGrow == p.maxGrowCopyInsns
  }

  ghost predicate SizedView(v: View) {
    Valid(v.g) && |v.visited| == |v.starts| == |v.g.info|
  }

  /** better_edge_p */
  predicate BetterEdgeP(g: Graph, partitioning: bool, bb: nat, e: nat, prob: int, freq: int, bestProb: int, bestFreq: int, cur: int)
    requires Indexed(g) && e < |g.edges| && NONE <= cur < |g.edges|
  {
    var diffProb, diffFreq := Quot(bestProb, 10), Quot(bestFreq, 10);
    var better :=
      if prob > bestProb + diffProb then true
      else if prob < bestProb - diffProb then false
      // Almost equivalent probabilities: a successor that is less frequent otherwise is better.
      else if freq < bestFreq - diffFreq then true
      else if freq > bestFreq + diffFreq then false
      // Equivalent: the successor that follows anyway.
      else g.info[g.edges[e].dest].prev == bb;
    better || (partitioning && cur != NONE && g.edges[cur].crossing && !g.edges[e].crossing)
  }

  /** The edge is not fit to be followed. */
  predicate Unsuitable(g: Graph, e: nat, th: Thresholds)
    requires Indexed(g) && e < |g.edges|
  {
    || !g.edges[e].canFallthru || g.edges[e].complex
    || g.edges[e].probability < th.branch || EdgeFrequency(g, e) < th.exec || g.edges[e].count < th.count
  }

  /** e leads from bb to a block of its partition that is not in an earlier trace; n is the number of this trace. */
  ghost predicate Choice(s: State, bb: nat, e: nat, n: nat) {
    && Leaves(s.g, bb, e) && e < |s.g.edges| && bb < |s.g.info|
    && var d := s.g.edges[e].dest;
      && d != EXIT && d != ENTRY && d < |s.visited| && d < |s.g.info|
      && (s.visited[d] == 0 || s.visited[d] == n)
      && s.g.info[d].partition == s.g.info[bb].partition
  }

  /** An outgoing edge of bb the loop looks at: to a block of its partition that is in no earlier trace. */
  predicate Looked(v: View, bb: nat, e: nat, n: nat)
    requires e < |v.g.edges| && v.g.edges[e].dest < |v.visited| == |v.g.info| && bb < |v.g.info|
  {
    var d := v.g.edges[e].dest;
    d != EXIT && (v.visited[d] == 0 || v.visited[d] == n) && v.g.info[d].partition == v.g.info[bb].partition
  }

  /** It could be followed: after a call only by falling through. */
  predicate Followable(v: View, bb: nat, e: nat, n: nat, th: Thresholds)
    requires Indexed(v.g) && e < |v.g.edges| && v.g.edges[e].dest < |v.visited| == |v.g.info| && bb < |v.g.info|
  {
    Looked(v, bb, e, n) && if v.g.info[bb].endsInCall then v.g.edges[e].canFallthru else !Unsuitable(v.g, e, th)
  }

  /** It replaces the edge taken so far: after a call always, else if it is better. */
  predicate Prefers(v: View, bb: nat, e: nat, cur: int)
    requires Indexed(v.g) && e < |v.g.edges| && NONE <= cur < |v.g.edges| && bb < |v.g.info|
  {
    var prob, freq := v.g.edges[e].probability, DestFrequency(v.g, e);
    || v.g.info[bb].endsInCall
    || (if cur == NONE then BetterEdgeP(v.g, v.partitioning, bb, e, prob, freq, HALF_INT_MIN, HALF_INT_MIN, NONE)
        else BetterEdgeP(v.g, v.partitioning, bb, e, prob, freq, v.g.edges[cur].probability, DestFrequency(v.g, cur), cur))
  }

  function DestFrequency(g: Graph, e: nat): int
    requires Indexed(g) && e < |g.edges|
  {
    g.info[g.edges[e].dest].frequency
  }

  /** The edge taken when the first i outgoing edges of bb have been looked at: each that could be followed replaces
      the one before it if it is preferred to it. */
  ghost function Picked(v: View, bb: nat, n: nat, th: Thresholds, i: nat): (best: int)
    requires SizedView(v) && bb < |v.g.info| && i <= |v.g.succs[bb]|
    ensures NONE <= best < |v.g.edges|
  {
    if i == 0 then NONE
    else
      var cur := Picked(v, bb, n, th, i - 1);
      var e := v.g.succs[bb][i - 1];
      EdgeOf(v.g, bb, i - 1);
      if Followable(v, bb, e, n, th) && Prefers(v, bb, e, cur) then e else cur
  }

  /** The loop that selects the successor to be placed after bb. */
  method SelectSuccessor(p: Layout, bb: nat, n: nat, th: Thresholds, ghost v: View) returns (best: int)
    requires Sized(p.S()) && bb < |p.g.info| && Sees(p, v)
    ensures best != NONE ==> best >= 0 && Choice(p.S(), bb, best, n)
    ensures best == Picked(v, bb, n, th, |p.g.succs[bb]|)
  {
    hide PredsOk, CrossingOk, SuccsOk, BetterEdgeP, EdgeFrequency;
    var bestProb, bestFreq := HALF_INT_MIN, HALF_INT_MIN;
    best := NONE;
    var g := p.g;
    for i := 0 to |g.succs[bb]|
      invariant best == Picked(v, bb, n, th, i)
      invariant best != NONE ==> best >= 0 && Choice(p.S(), bb, best, n)
      invariant best == NONE ==> bestProb == HALF_INT_MIN && bestFreq == HALF_INT_MIN
      invariant best != NONE ==> bestProb == g.edges[best].probability && bestFreq == DestFrequency(g, best)
    {
      var e := g.succs[bb][i];
      EdgeOf(g, bb, i);
      var d := g.edges[e].dest;
      if d == EXIT || (p.visited[d] != 0 && p.visited[d] != n) || g.info[d].partition != g.info[bb].partition {
        continue;
      }
      var prob, freq := g.edges[e].probability, g.info[d].frequency;
      if g.info[bb].endsInCall {
        // The only sensible preference for a call is the fallthru edge.
        if g.edges[e].canFallthru { best, bestProb, bestFreq := e, prob, freq; }
        continue;
      }
      // Edge that cannot be fallthru or improbable or infrequent successor.
      if !g.edges[e].canFallthru || g.edges[e].complex || prob < th.branch || EdgeFrequency(g, e) < th.exec || g.edges[e].count < th.count {
        continue;
      }
      if BetterEdgeP(g, p.partitioning, bb, e, prob, freq, bestProb, bestFreq, best) {
        best, bestProb, bestFreq := e, prob, freq;
      }
    }
  }

  /** Nothing is selected only if there is nothing to follow, and what is selected can be followed. */
  lemma {:induction false} PickedMeaning(v: View, bb: nat, n: nat, th: Thresholds, i: nat)
    requires SizedView(v) && bb < |v.g.info| && i <= |v.g.succs[bb]|
    requires forall e :: 0 <= e < |v.g.edges| ==> v.g.edges[e].probability >= 0
    ensures var best := Picked(v, bb, n, th, i);
      if best == NONE then forall k: nat :: k < i ==> Ahead(v, bb, k) && !Followable(v, bb, v.g.succs[bb][k], n, th)
      else exists k: nat :: k < i && Ahead(v, bb, k) && v.g.succs[bb][k] == best && Followable(v, bb, best, n, th)
  {
    hide PredsOk, CrossingOk, SuccsOk, Unsuitable, Looked;
    if i > 0 {
      PickedMeaning(v, bb, n, th, i - 1);
      EdgeOf(v.g, bb, i - 1);
      assert Ahead(v, bb, i - 1);
      FirstIsBetter(v, bb, v.g.succs[bb][i - 1]);
    }
  }

  predicate Ahead(v: View, bb: nat, k: nat)
    requires bb < |v.g.succs| && k < |v.g.succs[bb]|
  {
    v.g.succs[bb][k] < |v.g.edges| && v.g.edges[v.g.succs[bb][k]].dest < |v.visited| == |v.g.info|
  }

  lemma FirstIsBetter(v: View, bb: nat, e: nat)
    requires Indexed(v.g) && e < |v.g.edges| && bb < |v.g.info| && v.g.edges[e].probability >= 0
    ensures Prefers(v, bb, e, NONE)
  {}

  /** The edge at position k out of bb could be followed. */
  ghost predicate FollowableAt(v: View, bb: nat, n: nat, th: Thresholds, k: nat)
    requires SizedView(v) && bb < |v.g.info|
  {
    k < |v.g.succs[bb]| && Ahead(v, bb, k) && Followable(v, bb, v.g.succs[bb][k], n, th)
  }

  /** The edge at position k is preferred to those before it, and none behind it is preferred to it. */
  ghost predicate Wins(v: View, bb: nat, n: nat, th: Thresholds, k: nat)
    requires SizedView(v) && bb < |v.g.info|
  {
    && FollowableAt(v, bb, n, th, k)
    && (forall j :: 0 <= j < k && FollowableAt(v, bb, n, th, j) ==> Prefers(v, bb, v.g.succs[bb][k], v.g.succs[bb][j]))
    && (forall j :: k < j < |v.g.succs[bb]| && FollowableAt(v, bb, n, th, j) && v.g.succs[bb][j] != v.g.succs[bb][k]
          ==> !Prefers(v, bb, v.g.succs[bb][j], v.g.succs[bb][k]))
  }

  /** Such an edge is picked. */
  lemma {:induction false} WinnerPicked(v: View, bb: nat, n: nat, th: Thresholds, k: nat, i: nat)
    requires SizedView(v) && bb < |v.g.info| && Wins(v, bb, n, th, k) && k < i <= |v.g.succs[bb]|
    requires forall e :: 0 <= e < |v.g.edges| ==> v.g.edges[e].probability >= 0
    ensures Picked(v, bb, n, th, i) == v.g.succs[bb][k]
    decreases i
  {
    hide PredsOk, CrossingOk, SuccsOk, Followable, Prefers;
    EdgeOf(v.g, bb, i - 1);
    assert Ahead(v, bb, i - 1);
    if i == k + 1 {
      PickedMeaning(v, bb, n, th, k);
      FirstIsBetter(v, bb, v.g.succs[bb][k]);
      var cur := Picked(v, bb, n, th, k);
      if cur != NONE {
        var j: nat :| j < k && Ahead(v, bb, j) && v.g.succs[bb][j] == cur && Followable(v, bb, cur, n, th);
        assert FollowableAt(v, bb, n, th, j);
      }
    } else {
      WinnerPicked(v, bb, n, th, k, i - 1);
      if Followable(v, bb, v.g.succs[bb][i - 1], n, th) { assert FollowableAt(v, bb, n, th, i - 1); }
    }
  }

  /** After anything but a call, an edge more than a tenth more probable than every other that could be followed is picked. */
  lemma MostProbablePicked(v: View, bb: nat, n: nat, th: Thresholds, k: nat)
    requires SizedView(v) && bb < |v.g.info| && bb != ENTRY && !v.g.info[bb].endsInCall && FollowableAt(v, bb, n, th, k)
    requires forall e :: 0 <= e < |v.g.edges| ==> v.g.edges[e].probability >= 0
    requires forall j :: 0 <= j < |v.g.succs[bb]| && j != k && FollowableAt(v, bb, n, th, j) ==>
      var x, y := v.g.edges[v.g.succs[bb][k]].probability, v.g.edges[v.g.succs[bb][j]].probability;
      y < x - Quot(x, 10)
    ensures Picked(v, bb, n, th, |v.g.succs[bb]|) == v.g.succs[bb][k]
  {
    forall j | 0 <= j < |v.g.succs[bb]| && FollowableAt(v, bb, n, th, j) ensures !v.g.edges[v.g.succs[bb][j]].crossing {
      InsidePartition(v, bb, n, th, j);
    }
    WinnerPicked(v, bb, n, th, k, |v.g.succs[bb]|);
  }

  /** Among edges of about the same probability the one whose destination is less frequent by more than a tenth is picked. */
  lemma LeastFrequentPicked(v: View, bb: nat, n: nat, th: Thresholds, k: nat)
    requires SizedView(v) && bb < |v.g.info| && bb != ENTRY && !v.g.info[bb].endsInCall && FollowableAt(v, bb, n, th, k)
    requires forall e :: 0 <= e < |v.g.edges| ==> v.g.edges[e].probability >= 0
    requires forall b :: 0 <= b < |v.g.info| ==> v.g.info[b].frequency >= 0
    requires forall j :: 0 <= j < |v.g.succs[bb]| && j != k && FollowableAt(v, bb, n, th, j) ==>
      var e, f := v.g.succs[bb][k], v.g.succs[bb][j];
      && SameProbability(v.g, e, f)
      && DestFrequency(v.g, e) < DestFrequency(v.g, f) - Quot(DestFrequency(v.g, f), 10)
    ensures Picked(v, bb, n, th, |v.g.succs[bb]|) == v.g.succs[bb][k]
  {
    forall j | 0 <= j < |v.g.succs[bb]| && FollowableAt(v, bb, n, th, j) ensures !v.g.edges[v.g.succs[bb][j]].crossing {
      InsidePartition(v, bb, n, th, j);
    }
    WinnerPicked(v, bb, n, th, k, |v.g.succs[bb]|);
  }

  /** Neither is more than a tenth more probable than the other. */
  predicate SameProbability(g: Graph, e: nat, f: nat)
    requires e < |g.edges| && f < |g.edges|
  {
    var x, y := g.edges[e].probability, g.edges[f].probability;
    y - Quot(y, 10) <= x <= y + Quot(y, 10) && x - Quot(x, 10) <= y <= x + Quot(x, 10)
  }

  predicate SameFrequency(g: Graph, e: nat, f: nat)
    requires Indexed(g) && e < |g.edges| && f < |g.edges|
  {
    var x, y := DestFrequency(g, e), DestFrequency(g, f);
    y - Quot(y, 10) <= x <= y + Quot(y, 10) && x - Quot(x, 10) <= y <= x + Quot(x, 10)
  }

  /** Among edges of about the same probability and frequency the one that leads to the block behind bb is picked. */
  lemma NextPicked(v: View, bb: nat, n: nat, th: Thresholds, k: nat)
    requires SizedView(v) && bb < |v.g.info| && bb != ENTRY && !v.g.info[bb].endsInCall && FollowableAt(v, bb, n, th, k)
    requires forall e :: 0 <= e < |v.g.edges| ==> v.g.edges[e].probability >= 0
    requires v.g.info[v.g.edges[v.g.succs[bb][k]].dest].prev == bb
    requires forall j :: 0 <= j < |v.g.succs[bb]| && j != k && FollowableAt(v, bb, n, th, j) ==>
      var e, f := v.g.succs[bb][k], v.g.succs[bb][j];
      && SameProbability(v.g, e, f) && SameFrequency(v.g, e, f)
      && v.g.info[v.g.edges[f].dest].prev != bb
    ensures Picked(v, bb, n, th, |v.g.succs[bb]|) == v.g.succs[bb][k]
  {
    forall j | 0 <= j < |v.g.succs[bb]| && FollowableAt(v, bb, n, th, j) ensures !v.g.edges[v.g.succs[bb][j]].crossing {
      InsidePartition(v, bb, n, th, j);
    }
    WinnerPicked(v, bb, n, th, k, |v.g.succs[bb]|);
  }

  /** And with none that does, the first of them. */
  lemma FirstPicked(v: View, bb: nat, n: nat, th: Thresholds, k: nat)
    requires SizedView(v) && bb < |v.g.info| && bb != ENTRY && !v.g.info[bb].endsInCall && FollowableAt(v, bb, n, th, k)
    requires forall e :: 0 <= e < |v.g.edges| ==> v.g.edges[e].probability >= 0
    requires forall j :: 0 <= j < k ==> !FollowableAt(v, bb, n, th, j)
    requires forall j :: k < j < |v.g.succs[bb]| && FollowableAt(v, bb, n, th, j) ==>
      var e, f := v.g.succs[bb][k], v.g.succs[bb][j];
      && SameProbability(v.g, e, f) && SameFrequency(v.g, e, f)
      && v.g.info[v.g.edges[f].dest].prev != bb
    ensures Picked(v, bb, n, th, |v.g.succs[bb]|) == v.g.succs[bb][k]
  {
    forall j | 0 <= j < |v.g.succs[bb]| && FollowableAt(v, bb, n, th, j) ensures !v.g.edges[v.g.succs[bb][j]].crossing {
      InsidePartition(v, bb, n, th, j);
    }
    WinnerPicked(v, bb, n, th, k, |v.g.succs[bb]|);
  }

  /** After a call the last edge that could be followed is picked. */
  lemma LastAfterCallPicked(v: View, bb: nat, n: nat, th: Thresholds, k: nat)
    requires SizedView(v) && bb < |v.g.info| && v.g.info[bb].endsInCall && FollowableAt(v, bb, n, th, k)
    requires forall e :: 0 <= e < |v.g.edges| ==> v.g.edges[e].probability >= 0
    requires forall j :: k < j < |v.g.succs[bb]| ==> !FollowableAt(v, bb, n, th, j)
    ensures Picked(v, bb, n, th, |v.g.succs[bb]|) == v.g.succs[bb][k]
  {
    WinnerPicked(v, bb, n, th, k, |v.g.succs[bb]|);
  }

  /** An edge that could be followed does not cross between partitions. */
  lemma InsidePartition(v: View, bb: nat, n: nat, th: Thresholds, k: nat)
    requires SizedView(v) && bb < |v.g.info| && bb != ENTRY && FollowableAt(v, bb, n, th, k)
    ensures !v.g.edges[v.g.succs[bb][k]].crossing
  {
    EdgeOf(v.g, bb, k);
  }

  lemma PickedInside(v: View, bb: nat, n: nat, th: Thresholds, i: nat)
    requires SizedView(v) && bb < |v.g.info| && bb != ENTRY && i <= |v.g.succs[bb]|
    requires forall e :: 0 <= e < |v.g.edges| ==> v.g.edges[e].probability >= 0
    ensures Picked(v, bb, n, th, i) != NONE ==> !v.g.edges[Picked(v, bb, n, th, i)].crossing
  {
    hide Followable, PredsOk, CrossingOk, SuccsOk;
    PickedMeaning(v, bb, n, th, i);
    var cur := Picked(v, bb, n, th, i);
    if cur != NONE {
      var k: nat :| k < i && Ahead(v, bb, k) && v.g.succs[bb][k] == cur && Followable(v, bb, cur, n, th);
      assert FollowableAt(v, bb, n, th, k);
      InsidePartition(v, bb, n, th, k);
    }
  }

  lemma PrefersIdle(v: View, bb: nat, e: nat, cur: int, n: nat, th: Thresholds)
    requires Indexed(v.g) && e < |v.g.edges| && NONE <= cur < |v.g.edges| && bb < |v.g.info| == |v.visited|
    requires cur != NONE ==> !v.g.edges[cur].crossing
    ensures Prefers(v.(partitioning := true), bb, e, cur) == Prefers(v.(partitioning := false), bb, e, cur)
    ensures Followable(v.(partitioning := true), bb, e, n, th) == Followable(v.(partitioning := false), bb, e, n, th)
  {
    hide Unsuitable;
  }

  /** The rule that favours edges that do not cross never decides: edges that cross are not looked at. */
  lemma {:induction false} CrossingIdle(v: View, bb: nat, n: nat, th: Thresholds, i: nat)
    requires SizedView(v) && bb < |v.g.info| && bb != ENTRY && i <= |v.g.succs[bb]|
    requires forall e :: 0 <= e < |v.g.edges| ==> v.g.edges[e].probability >= 0
    ensures Picked(v.(partitioning := true), bb, n, th, i) == Picked(v.(partitioning := false), bb, n, th, i)
  {
    hide Followable, Prefers, PredsOk, CrossingOk, SuccsOk;
    if i > 0 {
      CrossingIdle(v, bb, n, th, i - 1);
      EdgeOf(v.g, bb, i - 1);
      PickedInside(v.(partitioning := true), bb, n, th, i - 1);
      PrefersIdle(v, bb, v.g.succs[bb][i - 1], Picked(v.(partitioning := true), bb, n, th, i - 1), n, th);
    }
  }

  // ---- the trace being formed ----

  /** Each block of c flows into the next. */
  ghost predicate Flowing(g: Graph, c: seq<nat>) {
    forall i :: 0 <= i < |c| - 1 ==> Flows(g, c[i], c[i + 1])
  }

  /** The last trace is open, and bb is to be its next block. */
  ghost predicate Open(s: State, g0: Graph, t: nat, bb: nat) {
    && Base(s, g0) && |s.chains| == t + 1 && |g0.succs| <= |s.visited|
    && bb < |s.visited| && s.visited[bb] == 0 && bb != ENTRY && bb != EXIT
    && Chained(s, t, bb) && ClosedBehind(s, s.g, bb) && ClosedBehind(s, g0, bb)
    && Flowing(s.g, s.chains[t] + [bb]) && OneColour(s.g, s.chains[t] + [bb])
  }

  /** bb has become its last block. */
  ghost predicate Entered(s: State, g0: Graph, t: nat, bb: nat) {
    && Base(s, g0) && |s.chains| == t + 1 && |g0.succs| <= |s.visited|
    && |s.chains[t]| > 0 && s.chains[t][|s.chains[t]| - 1] == bb
    && Chained(s, t, NONE) && ClosedBehind(s, s.g, bb) && ClosedBehind(s, g0, bb)
    && Flowing(s.g, s.chains[t]) && SameOut(s.g, g0, bb)
  }

  /** Its successors are taken care of, but perhaps one. */
  ghost predicate Chosen(s: State, g0: Graph, t: nat, bb: nat, but: int) {
    && Base(s, g0) && |s.chains| == t + 1 && |g0.succs| <= |s.visited|
    && |s.chains[t]| > 0 && s.chains[t][|s.chains[t]| - 1] == bb
    && Chained(s, t, NONE) && ClosedBut(s, s.g, but) && ClosedBut(s, g0, but)
    && Flowing(s.g, s.chains[t])
  }

  /** The trace is complete and ends with bb. */
  ghost predicate Complete(s: State, g0: Graph, t: nat, bb: nat) {
    && Base(s, g0) && |s.chains| == t + 1 && |g0.succs| <= |s.visited|
    && |s.chains[t]| > 0 && s.chains[t][|s.chains[t]| - 1] == bb
    && Chained(s, t, NONE) && ClosedBut(s, s.g, NONE) && ClosedBut(s, g0, NONE)
  }

  lemma VisitOpen(s: State, g0: Graph, t: nat, bb: nat)
    requires Open(s, g0, t, bb)
    ensures Entered(Visited(s, bb, t), g0, t, bb)
  {
    assert s.chains[t] != [] ==> s.g.info[bb].partition == s.g.info[s.chains[t][0]].partition by {
      assert (s.chains[t] + [bb])[|s.chains[t]|] == bb;
      if s.chains[t] != [] { assert (s.chains[t] + [bb])[0] == s.chains[t][0]; }
    }
    assert SameOut(s.g, g0, bb);
    hide Owned, Queued, Coloured, SinceStart, Chained, ClosedBehind, Flowing, OneColour, Valid, Loose, SameOut;
    VisitedBase(s, g0, bb, t);
    VisitedChained(s, bb, t);
    VisitedClosed(s, s.g, bb, t);
    VisitedClosed(s, g0, bb, t);
  }

  /** mark_bb_visited, with the ghost chain of the trace. */
  method MarkBbVisited(p: Layout, bb: nat, trace: nat)
    requires bb < |p.visited| == |p.bbd| && 0 < trace <= |p.chains|
    requires p.bbd[bb].heap != NONE ==> 0 <= p.bbd[bb].heap < |p.heaps|
    modifies p`visited, p`bbd, p`heaps, p`chains
    ensures p.S() == Visited(old(p.S()), bb, trace - 1)
  {
    p.visited := p.visited[bb := trace];
    var h := p.bbd[bb].heap;
    if h != NONE {
      p.heaps := p.heaps[h := p.heaps[h] - {bb}];
      p.bbd := p.bbd[bb := p.bbd[bb].(heap := NONE)];
    }
    p.chains := p.chains[trace - 1 := p.chains[trace - 1] + [bb]];
  }

  /** What putting blocks into the heaps h and h + 1 keeps. */
  ghost predicate Queueing(s: State, r: State, h: nat) {
    && r.g == s.g && r.aux == s.aux && r.visited == s.visited && r.chains == s.chains
    && |r.bbd| == |s.bbd| && |r.heaps| == |s.heaps|
    && (forall b :: 0 <= b < |s.bbd| ==>
          && r.bbd[b].startOfTrace == s.bbd[b].startOfTrace && r.bbd[b].endOfTrace == s.bbd[b].endOfTrace
          && (s.bbd[b].heap == h + 1 ==> r.bbd[b].heap == h + 1) && (s.bbd[b].heap != NONE ==> r.bbd[b].heap != NONE))
    && (forall x :: 0 <= x < |s.heaps| && x != h && x != h + 1 ==> r.heaps[x].Keys == s.heaps[x].Keys)
  }

  lemma QueueingCovers(s: State, r: State, h: nat, d: nat)
    requires Queueing(s, r, h) && Covered(s, d)
    ensures Covered(r, d)
  {}

  lemma QueueingTwice(s: State, r: State, q: State, h: nat)
    requires Queueing(s, r, h) && Queueing(r, q, h)
    ensures Queueing(s, q, h)
  {}

  lemma EnqueuedQueueing(s: State, d: nat, x: nat, key: int, h: nat)
    requires d < |s.bbd| && x < |s.heaps|
    requires (s.bbd[d].heap == NONE && (x == h || x == h + 1)) || (s.bbd[d].heap == x && d in s.heaps[x])
    ensures Queueing(s, Enqueued(s, d, x, key), h)
  {}

  lemma EnqueuedIs(s: State, r: State, d: nat, x: nat, key: int)
    requires d < |s.bbd| && x < |s.heaps|
    requires r == s.(heaps := r.heaps, bbd := r.bbd) && r.heaps == WithKey(s.heaps, x, d, key)
    requires r.bbd == s.bbd[d := s.bbd[d].(heap := x)]
    ensures r == Enqueued(s, d, x, key)
  {}

  lemma HeapOf(s: State, g0: Graph, d: nat)
    requires Base(s, g0) && d < |s.bbd|
    ensures Sized(s) && d < |s.g.info| == |s.visited| == |s.bbd|
    ensures s.bbd[d].heap != NONE ==> 0 <= s.bbd[d].heap < |s.heaps| && d in s.heaps[s.bbd[d].heap]
  {}

  lemma AlreadyCovered(s: State, d: nat)
    requires d < |s.bbd| == |s.visited| && s.bbd[d].heap != NONE
    ensures Covered(s, d)
  {}

  /** In the last round nothing is put off to a next one. */
  ghost predicate LastKept(th: Thresholds, heaps: seq<map<nat, int>>, now: seq<map<nat, int>>, h: nat) {
    th.round + 1 >= th.rounds && h + 1 < |heaps| && heaps[h + 1] == map[] ==> h + 1 < |now| && now[h + 1] == map[]
  }

  lemma LastKeptSame(th: Thresholds, heaps: seq<map<nat, int>>, h: nat)
    ensures LastKept(th, heaps, heaps, h)
  {}

  lemma LastKeptKey(th: Thresholds, heaps: seq<map<nat, int>>, x: nat, d: nat, key: int, h: nat)
    requires x < |heaps| && (x == h + 1 ==> th.round + 1 < th.rounds || d in heaps[x])
    ensures LastKept(th, heaps, WithKey(heaps, x, d, key), h)
  {}

  /** What is done for the edge e that is not followed: unless its destination is visited, it gets its key anew in the heap
      it is in, or else in that of the next round if both are unfit for this one, or else in that of this round. */
  ghost function AfterEdge(s: State, e: nat, th: Thresholds, h: nat): (r: State)
    requires Sized(s) && e < |s.g.edges| && h + 1 < |s.heaps|
    ensures Sized(r) && r.g == s.g && |r.heaps| == |s.heaps|
  {
    var d := s.g.edges[e].dest;
    if d == EXIT || s.visited[d] > 0 then s
    else
      var at := s.bbd[d].heap;
      var x := if at != NONE then at else if Unsuitable(s.g, e, th) && !InSeason(s.g, d, th) then h + 1 else h;
      if 0 <= x < |s.heaps| then Enqueued(s, d, x, KeyOf(s.g, s.bbd, d)) else s
  }

  /** The same for the first n edges out of bb but best. */
  ghost function AfterEdges(s: State, bb: nat, n: nat, best: int, th: Thresholds, h: nat): (r: State)
    requires Sized(s) && bb < |s.g.info| && n <= |s.g.succs[bb]| && h + 1 < |s.heaps|
    ensures Sized(r) && r.g == s.g && |r.heaps| == |s.heaps|
  {
    if n == 0 then s
    else
      EdgeOf(s.g, bb, n - 1);
      var r := AfterEdges(s, bb, n - 1, best, th, h);
      if s.g.succs[bb][n - 1] == best then r else AfterEdge(r, s.g.succs[bb][n - 1], th, h)
  }

  lemma EnqueuedAgain(s: State, d: nat, x: nat, key: int)
    requires d < |s.bbd| && x < |s.heaps| && s.bbd[d].heap == x && d in s.heaps[x] && s.heaps[x][d] == key
    ensures Enqueued(s, d, x, key) == s
  {
    assert s.heaps[x][d := key] == s.heaps[x];
    assert s.bbd[d := s.bbd[d].(heap := x)] == s.bbd;
  }

  /** An unsuitable successor that is not frequent enough for this round goes into the heap of the next. */
  method WhichHeap(p: Layout, e: nat, th: Thresholds, h: nat) returns (which: nat)
    requires Indexed(p.g) && e < |p.g.edges|
    ensures which == if Unsuitable(p.g, e, th) && !InSeason(p.g, p.g.edges[e].dest, th) then h + 1 else h
  {
    which := h;
    var edge := p.g.edges[e];
    if !edge.canFallthru || edge.complex || edge.probability < th.branch || EdgeFrequency(p.g, e) < th.exec || edge.count < th.count {
      var push := PushToNextRoundP(p.g, edge.dest, th);
      if push { which := h + 1; }
    }
  }

  /** Adding one successor of bb to a heap, or changing its key. */
  method QueueSuccessor(p: Layout, ghost g0: Graph, bb: nat, e: nat, th: Thresholds, h: nat)
    requires Base(p.S(), g0) && h + 1 < |p.heaps|
    requires e < |p.g.edges| && p.g.edges[e].dest != EXIT && p.visited[p.g.edges[e].dest] == 0
    modifies p`bbd, p`heaps
    ensures Base(p.S(), g0) && Queueing(old(p.S()), p.S(), h) && LastKept(th, old(p.heaps), p.heaps, h)
    ensures Covered(p.S(), p.g.edges[e].dest) && Sized(old(p.S())) && p.S() == AfterEdge(old(p.S()), e, th, h)
  {
    var d := p.g.edges[e].dest;
    var at := p.bbd[d].heap;
    HeapOf(p.S(), g0, d);
    hide Base, Valid, Sized, IsKey, KeyOf, Queueing, Covered, Enqueued, CrossingOk, Unsuitable, LastKept, WithKey;
    var key := BbToKey(p, d);
    if at != NONE {
      // It is already in some heap.
      if key != p.heaps[at][d] {
        EnqueuedBase(p.S(), g0, d, at, key);
        EnqueuedQueueing(p.S(), d, at, key, h);
        LastKeptKey(th, p.heaps, at, d, key, h);
        p.heaps := WithKey(p.heaps, at, d, key);
        EnqueuedIs(old(p.S()), p.S(), d, at, key);
      } else {
        EnqueuedAgain(p.S(), d, at, key);
        QueueingNone(p.S(), h);
        LastKeptSame(th, p.heaps, h);
      }
      AlreadyCovered(old(p.S()), d);
    } else {
      var which := WhichHeap(p, e, th, h);
      EnqueuedBase(p.S(), g0, d, which, key);
      EnqueuedQueueing(p.S(), d, which, key, h);
      LastKeptKey(th, p.heaps, which, d, key, h);
      p.heaps := WithKey(p.heaps, which, d, key);
      p.bbd := p.bbd[d := p.bbd[d].(heap := which)];
      EnqueuedIs(old(p.S()), p.S(), d, which, key);
    }
  }

  /** The loop that adds all non-selected successors to the heaps. */
  method QueueSuccessors(p: Layout, ghost g0: Graph, bb: nat, best: int, th: Thresholds, h: nat, ghost t: nat)
    requires Entered(p.S(), g0, t, bb) && h + 1 < |p.heaps|
    requires best != NONE ==> best >= 0 && Leaves(p.g, bb, best)
    modifies p`bbd, p`heaps
    ensures Queueing(old(p.S()), p.S(), h) && LastKept(th, old(p.heaps), p.heaps, h)
    ensures Sized(old(p.S())) && bb < |p.g.info| && p.S() == AfterEdges(old(p.S()), bb, |p.g.succs[bb]|, best, th, h)
    ensures Chosen(p.S(), g0, t, bb, if best == NONE then NONE else p.g.edges[best].dest)
  {
    hide Base, Chained, ClosedBehind, Flowing, ClosedBut, Queueing, KeyOf, Enqueued, Unsuitable, Valid;
    EnteredIn(p.S(), g0, t, bb);
    QueueingNone(p.S(), h);
    ghost var s := p.S();
    for i := 0 to |p.g.succs[bb]|
      invariant Base(p.S(), g0) && Queueing(s, p.S(), h) && LastKept(th, s.heaps, p.heaps, h)
      invariant p.g == s.g && p.S() == AfterEdges(s, bb, i, best, th, h)
      invariant forall k :: 0 <= k < i && p.g.succs[bb][k] != best ==> Covered(p.S(), s.g.edges[s.g.succs[bb][k]].dest)
    {
      QueueingSame(s, p.S(), h);
      var e := p.g.succs[bb][i];
      var d := p.g.edges[e].dest;
      if e == best || d == EXIT || p.visited[d] > 0 { continue; }
      ghost var r := p.S();
      QueueSuccessor(p, g0, bb, e, th, h);
      QueueingTwice(s, r, p.S(), h);
      forall k | 0 <= k < i && s.g.succs[bb][k] != best ensures Covered(p.S(), s.g.edges[s.g.succs[bb][k]].dest) {
        QueueingCovers(r, p.S(), h, s.g.edges[s.g.succs[bb][k]].dest);
      }
    }
    QueuedAll(s, p.S(), g0, t, bb, best, h);
  }

  lemma EnteredIn(s: State, g0: Graph, t: nat, bb: nat)
    requires Entered(s, g0, t, bb)
    ensures Base(s, g0) && Sized(s) && bb < |s.g.info| == |s.g.succs| && Indexed(s.g)
    ensures s.visited[bb] > 0 && |s.bbd| == |s.visited|
    ensures forall i :: 0 <= i < |s.g.succs[bb]| ==> s.g.succs[bb][i] < |s.g.edges| && s.g.edges[s.g.succs[bb][i]].dest < |s.visited|
  {
    InChain(s, t, |s.chains[t]| - 1);
    hide Owned, Queued, Coloured, SinceStart, Loose;
  }

  lemma QueueingNone(s: State, h: nat)
    ensures Queueing(s, s, h)
  {}

  lemma QueueingSame(s: State, r: State, h: nat)
    requires Queueing(s, r, h)
    ensures r.g == s.g && r.visited == s.visited && r.aux == s.aux && r.chains == s.chains && |r.heaps| == |s.heaps| && |r.bbd| == |s.bbd|
  {}

  lemma QueuedAll(s: State, r: State, g0: Graph, t: nat, bb: nat, best: int, h: nat)
    requires Entered(s, g0, t, bb) && Base(r, g0) && Queueing(s, r, h)
    requires best != NONE ==> 0 <= best < |s.g.edges|
    requires bb < |s.g.succs| && forall k :: 0 <= k < |s.g.succs[bb]| ==> s.g.succs[bb][k] < |s.g.edges|
    requires forall k :: 0 <= k < |s.g.succs[bb]| && s.g.succs[bb][k] != best ==> Covered(r, s.g.edges[s.g.succs[bb][k]].dest)
    ensures Chosen(r, g0, t, bb, if best == NONE then NONE else r.g.edges[best].dest)
  {
    var but := if best == NONE then NONE else r.g.edges[best].dest;
    hide Base, Flowing, Chain, OneColour;
    SameFlows(s.g, g0, bb);
    forall d: nat | Flows(s.g, bb, d) ensures Covered(r, d) || d == but {
      var i :| 0 <= i < |s.g.succs[bb]| && FlowsBy(s.g, bb, i, d);
    }
    forall d: nat | Covered(s, d) ensures Covered(r, d) { QueueingCovers(s, r, h, d); }
    hide SameOut;
    QueuedClosed(s, r, s.g, bb, but);
    QueuedClosed(s, r, g0, bb, but);
  }

  lemma QueuedClosed(s: State, r: State, g: Graph, bb: nat, but: int)
    requires ClosedBehind(s, g, bb) && r.visited == s.visited && |r.bbd| == |r.visited|
    requires bb < |s.visited| && s.visited[bb] > 0
    requires forall d: nat :: Covered(s, d) ==> Covered(r, d)
    requires forall d: nat :: Flows(g, bb, d) ==> Covered(r, d) || d == but
    ensures ClosedBut(r, g, but)
  {}

  // ---- going on with the trace ----

  /** The trace goes on with a successor of bb, from which whatever is still to be taken care of can be reached at once. */
  lemma ExtendOpen(s: State, g0: Graph, t: nat, bb: nat, but: int, next: nat)
    requires Chosen(s, g0, t, bb, but) && bb < |s.aux|
    requires next < |s.visited| && s.visited[next] == 0 && next != ENTRY && next != EXIT
    requires Flows(s.g, bb, next) && bb < |s.g.info| && next < |s.g.info|
    requires s.g.info[next].partition == s.g.info[bb].partition
    requires next == but || (but >= 0 && Flows(s.g, next, but))
    ensures Open(Linked(s, bb, next), g0, t, next)
  {
    hide Base, Chosen, Chained, Flowing, ClosedBut, ClosedBehind, OneColour, SameOut, Flows, Linked;
    ExtendFacts(s, g0, t, bb, but, next);
    SameFlows(s.g, g0, next);
    LinkedLast(s, t, NONE, next);
    LinkedBase(s, g0, bb, next);
    ExtendClosed(s, s.g, bb, but, next);
    ExtendClosed(s, g0, bb, but, next);
    FlowingMore(s.g, s.chains[t], next);
    LinkedIs(s, bb, next);
  }

  lemma LinkedIs(s: State, bb: nat, next: nat)
    requires bb < |s.aux|
    ensures var r := Linked(s, bb, next);
      r.g == s.g && r.visited == s.visited && r.chains == s.chains
  {}

  lemma ExtendFacts(s: State, g0: Graph, t: nat, bb: nat, but: int, next: nat)
    requires Chosen(s, g0, t, bb, but)
    requires next < |s.visited| && s.visited[next] == 0 && bb < |s.g.info| && next < |s.g.info|
    requires s.g.info[next].partition == s.g.info[bb].partition
    ensures Base(s, g0) && Owned(s) && Chained(s, t, NONE) && Flowing(s.g, s.chains[t]) && SameOut(s.g, g0, next)
    ensures ClosedBut(s, s.g, but) && ClosedBut(s, g0, but) && |g0.succs| <= |s.visited| == |s.aux|
    ensures |s.chains| == t + 1 && |s.chains[t]| > 0 && s.chains[t][|s.chains[t]| - 1] == bb < |s.aux| && s.visited[bb] > 0
    ensures OneColour(s.g, s.chains[t] + [next])
  {
    hide Owned, Queued, Loose, Valid, SameOut, Flows, Chained, Flowing, ClosedBut, AllHotOrCold;
    InChain(s, t, |s.chains[t]| - 1);
    assert OneColour(s.g, s.chains[t]);
  }

  lemma FlowingMore(g: Graph, c: seq<nat>, next: nat)
    requires Flowing(g, c) && |c| > 0 && Flows(g, c[|c| - 1], next)
    ensures Flowing(g, c + [next])
  {
    hide Flows;
  }

  lemma ExtendClosed(s: State, g: Graph, bb: nat, but: int, next: nat)
    requires ClosedBut(s, g, but) && bb < |s.aux|
    requires next == but || (but >= 0 && Flows(g, next, but))
    ensures ClosedBehind(Linked(s, bb, next), g, next)
  {
    hide Flows;
  }

  /** When nothing is left to be taken care of, the trace is complete. */
  lemma ChosenComplete(s: State, g0: Graph, t: nat, bb: nat, but: int)
    requires Chosen(s, g0, t, bb, but)
    requires but == NONE || (but >= 0 && Covered(s, but))
    ensures Complete(s, g0, t, bb)
  {
    hide Base, Flows, Flowing, Chained, Covered;
  }

  /** The block of a triangle that is better placed in between: bb leads to it, and it only to where best leads. */
  ghost predicate Between(s: State, bb: nat, best: nat, e: nat) {
    && best < |s.g.edges| && Choice(s, bb, e, 0)
    && var d := s.g.edges[e].dest;
      d < |s.g.succs| && SingleSucc(s.g, d) && FlowsBy(s.g, d, 0, s.g.edges[best].dest)
  }

  /** The test for such a block: it is not visited yet, is entered from bb only and, falling through, goes only to
      where best leads, and is frequent enough. */
  predicate OnSide(v: View, bb: nat, best: nat, e: nat)
    requires Indexed(v.g) && e < |v.g.edges| && best < |v.g.edges| && |v.g.succs| == |v.g.preds| == |v.g.info| == |v.visited|
  {
    var d := v.g.edges[e].dest;
    && e != best && v.g.edges[e].canFallthru && !v.g.edges[e].complex && v.visited[d] == 0
    && SinglePred(v.g, d) && !v.g.edges[e].crossing && SingleSucc(v.g, d) && v.g.succs[d][0] < |v.g.edges|
    && var f := v.g.succs[d][0];
      v.g.edges[f].canFallthru && !v.g.edges[f].complex && v.g.edges[f].dest == v.g.edges[best].dest
      && 2 * v.g.info[d].frequency >= EdgeFrequency(v.g, best)
  }

  /** e is the first edge out of bb to a block on the side, or best if there is none. */
  ghost predicate TakenEdge(v: View, bb: nat, best: nat, e: nat)
    requires SizedView(v) && bb < |v.g.info| && best < |v.g.edges|
  {
    if e == best then forall i :: 0 <= i < |v.g.succs[bb]| ==> NotOnSide(v, bb, best, i)
    else exists i :: 0 <= i < |v.g.succs[bb]| && v.g.succs[bb][i] == e && e < |v.g.edges| && OnSide(v, bb, best, e)
                     && forall k :: 0 <= k < i ==> NotOnSide(v, bb, best, k)
  }

  ghost predicate NotOnSide(v: View, bb: nat, best: nat, i: nat)
    requires SizedView(v) && bb < |v.g.info| && best < |v.g.edges| && i < |v.g.succs[bb]|
  {
    v.g.succs[bb][i] < |v.g.edges| && !OnSide(v, bb, best, v.g.succs[bb][i])
  }

  /** The check for a block on one side of a triangle: the first there is, else best. */
  method Triangle(p: Layout, ghost g0: Graph, bb: nat, best: nat, ghost v: View) returns (e: nat)
    requires Base(p.S(), g0) && bb < |p.g.info| && bb != ENTRY && Choice(p.S(), bb, best, 0) && Sees(p, v)
    ensures e == best || Between(p.S(), bb, best, e)
    ensures SizedView(v) && TakenEdge(v, bb, best, e)
  {
    hide Owned, Coloured, SinceStart, Loose, Queued, PredsOk;
    var g := p.g;
    for i := 0 to |g.succs[bb]|
      invariant forall k :: 0 <= k < i ==> NotOnSide(v, bb, best, k)
    {
      e := g.succs[bb][i];
      EdgeOf(g, bb, i);
      ValidCrossing(g, e);
      var d := g.edges[e].dest;
      if e != best && g.edges[e].canFallthru && !g.edges[e].complex && p.visited[d] == 0
         && SinglePred(g, d) && !g.edges[e].crossing && SingleSucc(g, d) {
        var f := g.succs[d][0];
        EdgeOf(g, d, 0);
        if g.edges[f].canFallthru && !g.edges[f].complex && g.edges[f].dest == g.edges[best].dest
           && 2 * g.info[d].frequency >= EdgeFrequency(g, best) {
          assert OnSide(v, bb, best, e);
          return e;
        }
      }
    }
    return best;
  }

  // ---- how a trace grows ----

  /** The destination can be duplicated cheaper than a jump: it will be when the traces are connected. */
  predicate CheapToCopy(v: View, d: nat)
    requires d < |v.g.info| == |v.g.preds| == |v.g.succs|
  {
    |v.g.preds[d]| >= 2 && WorthCopying(v.g, v.jumpLength, v.maxGrow, d, false)
  }

  /** The edge along which the trace is to go on behind bb, if any. */
  ghost function BestNext(v: View, bb: nat, n: nat, th: Thresholds): (best: int)
    requires SizedView(v) && bb < |v.g.info|
    ensures NONE <= best < |v.g.edges|
  {
    var e := Picked(v, bb, n, th, |v.g.succs[bb]|);
    if e != NONE && CheapToCopy(v, v.g.edges[e].dest) then NONE else e
  }

  /** The trace does not go on behind bb if and only if no edge out of bb can be followed, or the one picked leads to a
      block that is cheap to copy. */
  lemma EndsWhen(v: View, bb: nat, n: nat, th: Thresholds)
    requires SizedView(v) && bb < |v.g.info| && forall e :: 0 <= e < |v.g.edges| ==> v.g.edges[e].probability >= 0
    ensures BestNext(v, bb, n, th) == NONE <==>
      (forall k: nat :: !FollowableAt(v, bb, n, th, k))
      || (Picked(v, bb, n, th, |v.g.succs[bb]|) != NONE && CheapToCopy(v, v.g.edges[Picked(v, bb, n, th, |v.g.succs[bb]|)].dest))
  {
    hide Followable, WorthCopying;
    PickedMeaning(v, bb, n, th, |v.g.succs[bb]|);
    var e := Picked(v, bb, n, th, |v.g.succs[bb]|);
    if e != NONE {
      var k: nat :| k < |v.g.succs[bb]| && Ahead(v, bb, k) && v.g.succs[bb][k] == e && Followable(v, bb, e, n, th);
      assert FollowableAt(v, bb, n, th, k);
    }
  }

  /** The blocks of c are visited, in trace number n. */
  function MarkAll(visited: seq<nat>, c: seq<nat>, n: nat): (r: seq<nat>)
    ensures |r| == |visited|
  {
    if c == [] then visited
    else
      var r := MarkAll(visited, c[..|c| - 1], n);
      var b := c[|c| - 1];
      if b < |r| then r[b := n] else r
  }

  lemma MarkMore(visited: seq<nat>, c: seq<nat>, b: nat, n: nat)
    requires b < |visited|
    ensures MarkAll(visited, c + [b], n) == MarkAll(visited, c, n)[b := n]
  {
    assert (c + [b])[..|c|] == c;
  }

  /** v when the blocks of c have become part of trace number n. */
  function Along(v: View, c: seq<nat>, n: nat): View {
    v.(visited := MarkAll(v.visited, c, n))
  }

  /** The trace goes on from bb to next: along the best edge, or over the side of a triangle. */
  ghost predicate Follows(v: View, bb: nat, n: nat, th: Thresholds, next: nat)
    requires SizedView(v) && bb < |v.g.info|
  {
    var best := BestNext(v, bb, n, th);
    best != NONE && v.g.edges[best].dest < |v.visited| && v.visited[v.g.edges[best].dest] == 0
    && exists e: nat :: TakenEdge(v, bb, best, e) && e < |v.g.edges| && v.g.edges[e].dest == next
  }

  /** Each block of c is followed by the next one, when the blocks up to it are in the trace. */
  ghost predicate GrownBy(v: View, n: nat, th: Thresholds, c: seq<nat>)
    requires SizedView(v)
  {
    forall i: nat :: i + 1 < |c| ==> GrowsAt(v, n, th, c, i)
  }

  ghost predicate GrowsAt(v: View, n: nat, th: Thresholds, c: seq<nat>, i: nat)
    requires SizedView(v) && i + 1 < |c|
  {
    c[i] < |v.g.info| && Follows(Along(v, c[..i + 1], n), c[i], n, th, c[i + 1])
  }

  lemma GrownMore(v: View, n: nat, th: Thresholds, c: seq<nat>, next: nat)
    requires SizedView(v) && GrownBy(v, n, th, c) && c != [] && c[|c| - 1] < |v.g.info|
    requires Follows(Along(v, c, n), c[|c| - 1], n, th, next)
    ensures GrownBy(v, n, th, c + [next])
  {
    hide Follows, Valid, MarkAll;
    var d := c + [next];
    forall i: nat | i + 1 < |d| ensures GrowsAt(v, n, th, d, i) {
      assert d[..i + 1] == c[..i + 1];
      if i + 1 == |c| { assert c[..i + 1] == c; } else { assert GrowsAt(v, n, th, c, i); }
    }
  }

  // ---- rotating a loop ----

  datatype Best = Best(bb: int, edge: int, freq: int, count: int, preferred: bool)

  /** An edge that leaves the trace and can be fallen through. */
  predicate ExitsTrace(g: Graph, visited: seq<nat>, e: nat, n: nat) {
    && e < |g.edges| && g.edges[e].dest < |visited|
    && g.edges[e].dest != EXIT && visited[g.edges[e].dest] != n && g.edges[e].canFallthru && !g.edges[e].complex
  }

  ghost predicate Eligible(s: State, e: nat, n: nat) {
    ExitsTrace(s.g, s.visited, e, n)
  }

  /** Its destination is not visited yet, or starts a trace. */
  predicate MeetsStart(g: Graph, visited: seq<nat>, bbd: seq<Data>, e: nat) {
    && e < |g.edges| && g.edges[e].dest < |visited| && g.edges[e].dest < |bbd|
    && (visited[g.edges[e].dest] == 0 || bbd[g.edges[e].dest].startOfTrace >= 0)
  }

  ghost predicate Preferred(s: State, e: nat) {
    MeetsStart(s.g, s.visited, s.bbd, e)
  }

  /** best is an eligible edge, preferred if any is, out of the given blocks; none iff there is none. */
  ghost predicate BestOf(s: State, n: nat, bs: seq<nat>, best: Best) {
    && (best.edge == NONE <==> best.bb == NONE) && (best.preferred ==> best.edge != NONE)
    && (best.edge != NONE ==>
          && best.bb in bs && best.edge >= 0 && Leaves(s.g, best.bb, best.edge) && Eligible(s, best.edge, n)
          && (best.preferred ==> Preferred(s, best.edge)))
    && (forall b, e :: b in bs && Leaves(s.g, b, e) && Eligible(s, e, n) ==>
          best.edge != NONE && (Preferred(s, e) ==> best.preferred))
  }

  const NO_BEST := Best(NONE, NONE, -1, -1, false)

  /** Its destination is not visited yet, or starts a trace. */
  predicate Meets(v: View, e: nat) {
    && e < |v.g.edges| && v.g.edges[e].dest < |v.visited| && v.g.edges[e].dest < |v.starts|
    && (v.visited[v.g.edges[e].dest] == 0 || v.starts[v.g.edges[e].dest] >= 0)
  }

  /** One more edge out of the loop: it replaces the best one if it meets the start of a trace and that one does not, or if
      it is as good in this and more frequent or taken more often. */
  function ScanEdge(v: View, n: nat, e: nat, r: Best): Best
    requires Indexed(v.g)
  {
    if !ExitsTrace(v.g, v.visited, e, n) then r
    else
      var freq, count, meets := EdgeFrequency(v.g, e), v.g.edges[e].count, Meets(v, e);
      if (meets && !r.preferred) || (meets == r.preferred && (r.edge == NONE || freq > r.freq || count > r.count))
      then Best(v.g.edges[e].src, e, freq, count, meets) else r
  }

  function ScanList(v: View, n: nat, l: seq<nat>): Best
    requires Indexed(v.g)
  {
    if l == [] then NO_BEST else ScanEdge(v, n, l[|l| - 1], ScanList(v, n, l[..|l| - 1]))
  }

  /** The edges out of the blocks bs, in order. */
  function EdgesOut(v: View, bs: seq<nat>): seq<nat> {
    if bs == [] then []
    else
      var b := bs[|bs| - 1];
      EdgesOut(v, bs[..|bs| - 1]) + if b < |v.g.succs| then v.g.succs[b] else []
  }

  /** e leads out of the loop, and is at least as frequent and as often taken as f, and one of them more. */
  predicate Dominates(v: View, e: nat, f: nat)
    requires Indexed(v.g) && e < |v.g.edges| && f < |v.g.edges|
  {
    var x, y := EdgeFrequency(v.g, e), EdgeFrequency(v.g, f);
    var a, b := v.g.edges[e].count, v.g.edges[f].count;
    x >= y && a >= b && (x > y || a > b)
  }

  /** An edge that dominates all others that leave the loop wins; if it meets the start of a trace, it needs to dominate only
      those that do as well, and if it does not, no other may. */
  lemma {:induction false} DominantWins(v: View, n: nat, l: seq<nat>, e: nat)
    requires Indexed(v.g) && e in l && ExitsTrace(v.g, v.visited, e, n)
    requires EdgeFrequency(v.g, e) >= 0 && v.g.edges[e].count >= 0
    requires forall f :: f in l && f != e && ExitsTrace(v.g, v.visited, f, n) ==>
      if Meets(v, e) then Meets(v, f) ==> Dominates(v, e, f) else !Meets(v, f) && Dominates(v, e, f)
    ensures ScanList(v, n, l).edge == e && ScanList(v, n, l).bb == v.g.edges[e].src
  {
    ScanListOf(v, n, l);
    var rest, f := l[..|l| - 1], l[|l| - 1];
    assert l == rest + [f];
    ScanListOf(v, n, rest);
    if e in rest { DominantWins(v, n, rest, e); }
  }

  /** The best edge so far is one of those looked at, with what was noted of it; there is one if any leaves the loop. */
  lemma {:induction false} ScanListOf(v: View, n: nat, l: seq<nat>)
    requires Indexed(v.g)
    ensures var r := ScanList(v, n, l);
      if r.edge == NONE then r == NO_BEST && forall f :: f in l ==> !ExitsTrace(v.g, v.visited, f, n)
      else 0 <= r.edge && r.edge in l && ExitsTrace(v.g, v.visited, r.edge, n) && r.bb == v.g.edges[r.edge].src
           && r.freq == EdgeFrequency(v.g, r.edge) && r.count == v.g.edges[r.edge].count && (r.preferred <==> Meets(v, r.edge))
  {
    if l != [] {
      ScanListOf(v, n, l[..|l| - 1]);
      assert l == l[..|l| - 1] + [l[|l| - 1]];
    }
  }

  lemma ScanListMore(v: View, n: nat, l: seq<nat>, e: nat)
    requires Indexed(v.g)
    ensures ScanList(v, n, l + [e]) == ScanEdge(v, n, e, ScanList(v, n, l))
  {
    assert (l + [e])[..|l|] == l;
  }

  /** The edges of one block, after those of the blocks bs. */
  method ScanBlock(p: Layout, bb: nat, n: nat, best: Best, ghost bs: seq<nat>, ghost v: View) returns (r: Best)
    requires Sized(p.S()) && bb < |p.g.info| && BestOf(p.S(), n, bs, best) && Sees(p, v)
    requires best == ScanList(v, n, EdgesOut(v, bs))
    ensures BestOf(p.S(), n, bs + [bb], r) && r == ScanList(v, n, EdgesOut(v, bs + [bb]))
  {
    hide Valid, Scanned, ScanList, BestOf;
    ValidShape(p.g);
    r := best;
    ghost var before := EdgesOut(v, bs);
    assert (bs + [bb])[..|bs|] == bs;
    assert before + p.g.succs[bb][..0] == before;
    ScanStarts(p.S(), n, bs, bb, best);
    for i := 0 to |p.g.succs[bb]|
      invariant Scanned(p.S(), n, bs, bb, i, r) && r == ScanList(v, n, before + p.g.succs[bb][..i])
      invariant r.preferred ==> r.edge != NONE
    {
      var e := p.g.succs[bb][i];
      EdgeOf(p.g, bb, i);
      assert p.g.succs[bb][..i + 1] == p.g.succs[bb][..i] + [e];
      assert before + p.g.succs[bb][..i + 1] == before + p.g.succs[bb][..i] + [e];
      ScanListMore(v, n, before + p.g.succs[bb][..i], e);
      ScannedMore(p.S(), v, n, bs, bb, i, r);
      var d := p.g.edges[e].dest;
      if d != EXIT && p.visited[d] != n && p.g.edges[e].canFallthru && !p.g.edges[e].complex {
        var freq := EdgeFrequency(p.g, e);
        var count := p.g.edges[e].count;
        if r.preferred {
          if (p.visited[d] == 0 || p.bbd[d].startOfTrace >= 0) && (freq > r.freq || count > r.count) {
            r := Best(bb, e, freq, count, true);
          }
        } else if p.visited[d] == 0 || p.bbd[d].startOfTrace >= 0 {
          r := Best(bb, e, freq, count, true);
        } else if r.edge == NONE || freq > r.freq || count > r.count {
          r := Best(bb, e, freq, count, false);
        }
      }
    }
    ScannedAll(p.S(), n, bs, bb, r);
    assert p.g.succs[bb][..|p.g.succs[bb]|] == p.g.succs[bb];
  }

  lemma ScanStarts(s: State, n: nat, bs: seq<nat>, bb: nat, best: Best)
    requires bb < |s.g.succs| && BestOf(s, n, bs, best)
    ensures Scanned(s, n, bs, bb, 0, best) && (best.preferred ==> best.edge != NONE)
  {}

  /** The same in the middle of the edges of bb. */
  ghost predicate Scanned(s: State, n: nat, bs: seq<nat>, bb: nat, i: nat, best: Best) {
    && bb < |s.g.succs| && i <= |s.g.succs[bb]|
    && (best.edge == NONE <==> best.bb == NONE) && (best.preferred ==> best.edge != NONE)
    && (best.edge != NONE ==>
          && (best.bb in bs || best.bb == bb) && best.edge >= 0 && Leaves(s.g, best.bb, best.edge)
          && Eligible(s, best.edge, n) && (best.preferred ==> Preferred(s, best.edge)))
    && (forall b, e :: b in bs && Leaves(s.g, b, e) && Eligible(s, e, n) ==>
          best.edge != NONE && (Preferred(s, e) ==> best.preferred))
    && (forall k :: 0 <= k < i && Eligible(s, s.g.succs[bb][k], n) ==>
          best.edge != NONE && (Preferred(s, s.g.succs[bb][k]) ==> best.preferred))
  }

  lemma ScannedMore(s: State, v: View, n: nat, bs: seq<nat>, bb: nat, i: nat, was: Best)
    requires Indexed(v.g) && Shows(v, s.g, s.visited, s.bbd) && Scanned(s, n, bs, bb, i, was) && i < |s.g.succs[bb]|
    requires s.g.succs[bb][i] < |s.g.edges| && s.g.edges[s.g.succs[bb][i]].src == bb
    ensures Scanned(s, n, bs, bb, i + 1, ScanEdge(v, n, s.g.succs[bb][i], was))
  {
    var e := s.g.succs[bb][i];
    assert Eligible(s, e, n) <==> ExitsTrace(v.g, v.visited, e, n);
    assert Preferred(s, e) <==> Meets(v, e);
    assert Leaves(s.g, bb, e);
    hide ExitsTrace, Eligible, Preferred, Meets, EdgeFrequency, Shows;
  }

  lemma ScannedAll(s: State, n: nat, bs: seq<nat>, bb: nat, best: Best)
    requires bb < |s.g.succs| && Scanned(s, n, bs, bb, |s.g.succs[bb]|, best)
    ensures BestOf(s, n, bs + [bb], best)
  {
    hide Eligible, Preferred;
    assert (bs + [bb])[|bs|] == bb;
  }

  /** The last block of the trace leads back to its block number pos. */
  ghost predicate Looped(s: State, g0: Graph, t: nat, pos: nat) {
    && Base(s, g0) && |s.chains| == t + 1 && |g0.succs| <= |s.visited| && pos < |s.chains[t]|
    && Chained(s, t, s.chains[t][pos]) && ClosedBut(s, s.g, NONE) && ClosedBut(s, g0, NONE)
  }

  lemma LoopedIn(s: State, g0: Graph, t: nat, pos: nat)
    requires Looped(s, g0, t, pos)
    ensures |s.g.info| == |s.g.preds| == |s.g.succs| == |s.aux|
    ensures t < |s.chains| && pos < |s.chains[t]| && Sized(s) && Indexed(s.g) && Once(s.chains[t]) && Chain(s.aux, s.chains[t], s.chains[t][pos])
    ensures forall i :: 0 <= i < |s.chains[t]| ==>
              1 < s.chains[t][i] < |s.aux| == |s.visited| && s.visited[s.chains[t][i]] == t + 1
  {
    Distinct(s, t);
    forall i | 0 <= i < |s.chains[t]|
      ensures 1 < s.chains[t][i] < |s.aux| && s.visited[s.chains[t][i]] == t + 1
    {
      InChain(s, t, i);
    }
    hide Owned, Coloured, SinceStart, Loose, Queued, Once;
  }

  /** Finding the best block to be the last of the loop: the do loop of rotate_loop. */
  method ScanLoop(p: Layout, ghost g0: Graph, dest: nat, t: nat, ghost pos: nat, ghost v: View) returns (best: Best)
    requires Looped(p.S(), g0, t, pos) && p.chains[t][pos] == dest && Sees(p, v) && Indexed(v.g)
    ensures BestOf(p.S(), t + 1, p.chains[t][pos..], best)
    ensures best == ScanList(v, t + 1, EdgesOut(v, p.chains[t][pos..]))
  {
    hide BestOf, Looped, Valid, Once, Chain, Owned, Queued, ScanList, EdgesOut, Shows;
    LoopedIn(p.S(), g0, t, pos);
    ghost var c := p.chains[t];
    best := NO_BEST;
    var bb := dest;
    ghost var q := pos;
    BestOfNone(p.S(), t + 1, best);
    assert c[pos..pos] == [];
    ScanNone(v, t + 1);
    while true
      invariant pos <= q < |c| && bb == c[q] && BestOf(p.S(), t + 1, c[pos..q], best)
      invariant best == ScanList(v, t + 1, EdgesOut(v, c[pos..q]))
      decreases |c| - q
    {
      best := ScanBlock(p, bb, t + 1, best, c[pos..q], v);
      assert c[pos..q] + [bb] == c[pos..q + 1];
      AroundLoop(p.aux, c, pos, q);
      bb := p.aux[bb];
      if bb == dest { break; }
      q := q + 1;
    }
    assert c[pos..q + 1] == c[pos..];
  }

  lemma ScanNone(v: View, n: nat)
    requires Indexed(v.g)
    ensures ScanList(v, n, EdgesOut(v, [])) == NO_BEST
  {}

  lemma BestOfNone(s: State, n: nat, best: Best)
    requires best.bb == NONE && best.edge == NONE && !best.preferred
    ensures BestOf(s, n, [], best)
  {}

  lemma AroundLoop(aux: seq<int>, c: seq<nat>, pos: nat, q: nat)
    requires Once(c) && pos <= q < |c| && Chain(aux, c, c[pos])
    ensures c[q] < |aux| && if q + 1 < |c| then aux[c[q]] == c[q + 1] != c[pos] else aux[c[q]] == c[pos]
  {}

  /** Splicing the loop so that position j is last; its end still leads to its beginning. */
  lemma SplicedLooped(s: State, r: State, g0: Graph, t: nat, pos: nat, j: nat)
    requires Looped(s, g0, t, pos) && pos <= j < |s.chains[t]|
    requires forall i :: 0 <= i < |s.chains[t]| ==> s.chains[t][i] < |s.aux|
    requires r == s.(aux := Spliced(s.aux, s.chains[t], pos, j), chains := s.chains[t := Rotated(s.chains[t], pos, j)])
    ensures |r.chains[t]| == |s.chains[t]| && Looped(r, g0, t, pos)
  {
    hide Chained, Rotated, Spliced, Flows, Once, Chain, SameOut, OneColour, Valid, Owned, Coloured, Loose, Queued, SinceStart, ClosedBut;
    LoopedIn(s, g0, t, pos);
    RotatedMembers(s.chains[t], pos, j);
    if pos > 0 { InChain(s, t, pos - 1); }
    SplicedOwned(s, r, t, pos, j);
    SplicedChained(s, r, t, pos, j);
    SplicedColoured(s, r, t);
    SplicedLoose(s, r, t, pos, j);
    SameElse(s, r, g0);
  }

  lemma SameElse(s: State, r: State, g0: Graph)
    requires r.g == s.g && r.visited == s.visited && r.bbd == s.bbd && r.heaps == s.heaps
    ensures Queued(s) ==> Queued(r)
    ensures SinceStart(s, g0) ==> SinceStart(r, g0)
    ensures ClosedBut(s, s.g, NONE) && ClosedBut(s, g0, NONE) ==> ClosedBut(r, r.g, NONE) && ClosedBut(r, g0, NONE)
  {
    hide SameOut, Flows;
  }

  lemma SplicedLoose(s: State, r: State, t: nat, pos: nat, j: nat)
    requires Loose(s) && t < |s.chains| && pos <= j < |s.chains[t]| && r.visited == s.visited
    requires forall i :: 0 <= i < |s.chains[t]| ==> s.chains[t][i] < |s.aux|
    requires pos > 0 ==> s.visited[s.chains[t][pos - 1]] > 0
    requires r.aux == Spliced(s.aux, s.chains[t], pos, j)
    ensures Loose(r) && |r.aux| == |s.aux|
  {}

  lemma SplicedColoured(s: State, r: State, t: nat)
    requires Coloured(s) && t < |s.chains| == |r.chains| && r.g == s.g
    requires forall u :: 0 <= u < |s.chains| && u != t ==> r.chains[u] == s.chains[u]
    requires forall x :: x in r.chains[t] <==> x in s.chains[t]
    ensures Coloured(r)
  {
    forall u | 0 <= u < |r.chains| ensures OneColour(r.g, r.chains[u]) {
      assert OneColour(s.g, s.chains[u]);
      if u == t {
        var c, d := s.chains[t], r.chains[t];
        forall i | 0 <= i < |d| ensures d[i] < |r.g.info| && c != [] && r.g.info[d[i]].partition == r.g.info[c[0]].partition {
          assert d[i] in c;
        }
      }
    }
  }

  lemma SplicedOwned(s: State, r: State, t: nat, pos: nat, j: nat)
    requires Owned(s) && t < |s.chains| && pos <= j < |s.chains[t]|
    requires r.visited == s.visited && r.chains == s.chains[t := Rotated(s.chains[t], pos, j)]
    ensures Owned(r)
  {
    assert Lists(s.visited, s.chains[t], t + 1);
    RotatedMembers(s.chains[t], pos, j);
    hide Rotated, Once;
    assert Lists(r.visited, r.chains[t], t + 1);
    hide Lists;
    ReplacedOwned(s, r, t);
  }

  lemma SplicedChained(s: State, r: State, t: nat, pos: nat, j: nat)
    requires Owned(s) && t < |s.chains| && pos <= j < |s.chains[t]|
    requires Chained(s, t, s.chains[t][pos])
    requires forall i :: 0 <= i < |s.chains[t]| ==> s.chains[t][i] < |s.aux|
    requires r.chains == s.chains[t := Rotated(s.chains[t], pos, j)] && r.aux == Spliced(s.aux, s.chains[t], pos, j)
    ensures |r.chains[t]| == |s.chains[t]| && Chained(r, t, r.chains[t][pos])
  {
    var c := s.chains[t];
    Distinct(s, t);
    RotatedChain(s.aux, c, pos, j);
    if pos > 0 {
      forall u | 0 <= u < |s.chains| && u != t ensures c[pos - 1] !in s.chains[u] {
        Apart(s, t, u, pos - 1);
      }
    }
    hide Chain, Owned, Rotated;
    forall u | 0 <= u < |r.chains| ensures Chain(r.aux, r.chains[u], if u == t then r.chains[t][pos] else NONE) {
      assert Chain(s.aux, s.chains[u], if u == t then c[pos] else NONE);
      if u != t && pos > 0 { ChainElsewhere(s.aux, s.chains[u], NONE, c[pos - 1], s.aux[c[j]]); }
    }
  }

  /** Some block of the loop has an eligible edge only if the last block of the trace has one, and likewise with preferred edges. */
  ghost predicate GoodEnd(s: State, n: nat, loop: seq<nat>, last: nat) {
    forall b, e :: b in loop && Leaves(s.g, b, e) && Eligible(s, e, n) ==>
      exists f :: Leaves(s.g, last, f) && Eligible(s, f, n) && (Preferred(s, e) ==> Preferred(s, f))
  }

  lemma BestIsGood(s: State, n: nat, loop: seq<nat>, best: Best, last: nat)
    requires BestOf(s, n, loop, best) && (best.bb != NONE ==> best.bb == last)
    ensures GoodEnd(s, n, loop, last)
  {
    hide Eligible, Preferred, Leaves;
    if best.edge != NONE { assert Leaves(s.g, last, best.edge); }
  }

  /** The first position of b in c, or |c| if there is none. */
  function PosOf(c: seq<nat>, b: int): (i: nat)
    ensures i <= |c| && (i < |c| ==> c[i] == b) && forall k :: 0 <= k < i ==> c[k] != b
  {
    if c == [] || c[0] == b then 0 else 1 + PosOf(c[1..], b)
  }

  ghost predicate Within(v: View, c: seq<nat>) {
    SizedView(v) && forall i :: 0 <= i < |c| ==> c[i] < |v.g.info|
  }

  /** The loop header is small, ends with a conditional jump, and is all that prev leads to. */
  predicate HeaderToCopy(v: View, prev: nat, header: nat)
    requires prev < |v.g.succs| == |v.g.info| == |v.g.preds| && header < |v.g.info|
  {
    && SingleSucc(v.g, prev) && v.g.info[header].condJump && !v.g.info[header].crossingNote
    && WorthCopying(v.g, v.jumpLength, v.maxGrow, header, false)
  }

  /** The chain c, whose end leads back to position pos: the block with the best edge out of the loop comes last, and what
      leads to the loop may get a copy of the header. Without such an edge c stays. */
  ghost function RotatedFor(v: View, c: seq<nat>, pos: nat, n: nat): seq<nat>
    requires Within(v, c) && pos < |c|
  {
    var j := PosOf(c, ScanList(v, n, EdgesOut(v, c[pos..])).bb);
    if !(pos <= j < |c|) then c
    else if pos > 0 && HeaderToCopy(v, c[pos - 1], c[pos]) then Inserted(Rotated(c, pos, j), pos - 1, |v.g.info|)
    else Rotated(c, pos, j)
  }

  lemma BestIn(s: State, n: nat, c: seq<nat>, pos: nat, best: Best)
    requires pos < |c| && Once(c) && BestOf(s, n, c[pos..], best)
    ensures best.bb == NONE || pos <= PosOf(c, best.bb) < |c|
  {
    hide Eligible, Preferred, Leaves;
    if best.bb != NONE {
      var k :| 0 <= k < |c[pos..]| && c[pos..][k] == best.bb;
      assert c[pos + k] == best.bb;
    }
  }

  predicate SameEnds(bbd: seq<Data>, now: seq<Data>) {
    && |bbd| <= |now|
    && (forall b :: 0 <= b < |bbd| ==> now[b].startOfTrace == bbd[b].startOfTrace && now[b].endOfTrace == bbd[b].endOfTrace)
    && (forall b :: |bbd| <= b < |now| ==> now[b].startOfTrace == NONE && now[b].endOfTrace == NONE)
  }

  /** What is known of other traces and of the queue stays the same when trace t changes. */
  ghost predicate SameTraces(s: State, r: State, t: nat) {
    && r.heaps == s.heaps && |r.chains| == |s.chains| && (forall u :: 0 <= u < |s.chains| && u != t ==> r.chains[u] == s.chains[u])
    && SameEnds(s.bbd, r.bbd) && |s.visited| <= |r.visited|
    && (forall b :: 0 <= b < |s.bbd| ==> r.bbd[b].heap == s.bbd[b].heap)
    && (forall b :: 0 <= b < |s.visited| ==> r.visited[b] == s.visited[b])
    && (forall b :: |s.visited| <= b < |r.visited| ==> r.visited[b] > 0)
  }

  lemma SameTracesTwice(s: State, r: State, q: State, t: nat)
    requires SameTraces(s, r, t) && SameTraces(r, q, t)
    ensures SameTraces(s, q, t)
  {}

  lemma SameTracesBut(s: State, r: State, t: nat)
    requires r == s.(aux := r.aux, chains := r.chains) && |r.chains| == |s.chains|
    requires forall u :: 0 <= u < |s.chains| && u != t ==> r.chains[u] == s.chains[u]
    ensures SameTraces(s, r, t)
  {}

  lemma SameTracesCopied(s: State, r: State, block: nat, e: nat, t: nat, k: nat)
    requires Copied(s, r, block, e, t, k, t + 1)
    ensures SameTraces(s, r, t)
  {
    hide Valid, Duplicated;
  }

  /** The facts about a rotated chain that the procedure uses. */
  lemma RotatedFacts(aux: seq<int>, c: seq<nat>, pos: nat, j: nat)
    requires Once(c) && pos <= j < |c| && Chain(aux, c, c[pos])
    ensures |Rotated(c, pos, j)| == |c| && Rotated(c, pos, j)[|c| - 1] == c[j]
    ensures Rotated(c, pos, j)[pos] == aux[c[j]]
    ensures pos > 0 ==> Rotated(c, pos, j)[0] == c[0] && Rotated(c, pos, j)[pos - 1] == c[pos - 1]
    ensures pos > 0 ==> Spliced(aux, c, pos, j) == aux[c[pos - 1] := aux[c[j]]]
    ensures pos == 0 ==> Spliced(aux, c, pos, j) == aux
    ensures c[pos] == c[0] ==> pos == 0
  {
    RotatedEnds(c, pos, j);
    RotatedChain(aux, c, pos, j);
  }

  lemma RotatedEnds(c: seq<nat>, pos: nat, j: nat)
    requires pos <= j < |c|
    ensures |Rotated(c, pos, j)| == |c| && Rotated(c, pos, j)[|c| - 1] == c[j]
    ensures pos > 0 ==> Rotated(c, pos, j)[0] == c[0] && Rotated(c, pos, j)[pos - 1] == c[pos - 1]
  {
    RotatedAt(c, pos, j, |c| - 1);
    RotatedAt(c, pos, j, 0);
    if pos > 0 { RotatedAt(c, pos, j, pos - 1); }
  }

  lemma NotRotated(aux: seq<int>, c: seq<nat>, pos: nat)
    requires Once(c) && pos < |c| && Chain(aux, c, c[pos])
    ensures Rotated(c, pos, |c| - 1) == c && Spliced(aux, c, pos, |c| - 1) == aux
  {
    assert c == c[..pos] + [] + c[pos..];
    hide Once, Rotated;
    assert aux[c[|c| - 1]] == Next(c, |c| - 1, c[pos]);
    if pos > 0 { assert aux[c[pos - 1]] == Next(c, pos - 1, c[pos]); }
  }

  /** The loop that looks for the block in front of the loop header. */
  method Predecessor(p: Layout, t: nat, ghost pos: nat, dest: nat, ghost c: seq<nat>) returns (prev: nat)
    requires t < |p.traces| && 0 < pos < |c| && p.traces[t].first == c[0] && c[pos] == dest
    requires Once(c) && Chain(p.aux, c, dest)
    ensures prev == c[pos - 1]
  {
    prev := p.traces[t].first;
    ghost var i := 0;
    while p.aux[prev] != dest
      invariant 0 <= i < pos && prev == c[i]
      decreases pos - i
    {
      InFront(p.aux, c, pos, i);
      prev := p.aux[prev];
      i := i + 1;
    }
    InFront(p.aux, c, pos, i);
  }

  lemma InFront(aux: seq<int>, c: seq<nat>, pos: nat, i: nat)
    requires Once(c) && pos < |c| && Chain(aux, c, c[pos]) && i < pos
    ensures c[i] < |aux| && aux[c[i]] == c[i + 1] && (c[i + 1] == c[pos] <==> i + 1 == pos)
  {}

  lemma LoopedEnd(s: State, g0: Graph, t: nat, pos: nat, last: nat)
    requires Looped(s, g0, t, pos) && last == s.chains[t][|s.chains[t]| - 1]
    ensures last < |s.aux| && Complete(Linked(s, last, NONE), g0, t, last)
  {
    LoopedIn(s, g0, t, pos);
    InChain(s, t, |s.chains[t]| - 1);
    hide Valid, Once, Chained, Owned, Coloured, SinceStart, Loose, Queued, Chain, Flows, Covered;
    LinkedLast(s, t, s.chains[t][pos], NONE);
    LinkedBase(s, g0, last, NONE);
  }

  /** Try to get rid of an unconditional jump to a conditional jump: the loop header is duplicated behind prev, if it is
      the only successor of it, small, and ends with a conditional jump. */
  method CopyHeader(p: Layout, ghost g0: Graph, t: nat, ghost pos: nat, prev: nat, ghost c: seq<nat>, ghost j: nat, ghost v: View)
    returns (ghost pos': nat)
    requires Looped(p.S(), g0, t, pos) && Flowing(p.g, c) && Once(c) && 0 < pos <= j < |c| && prev == c[pos - 1]
    requires p.chains[t] == Rotated(c, pos, j) && Sees(p, v) && Within(v, c)
    modifies p`g, p`aux, p`visited, p`bbd, p`chains
    ensures Looped(p.S(), g0, t, pos') && SameTraces(old(p.S()), p.S(), t)
    ensures p.chains[t] == if HeaderToCopy(v, prev, c[pos]) then Inserted(Rotated(c, pos, j), pos - 1, |v.g.info|) else Rotated(c, pos, j)
    ensures |p.chains[t]| > 0 && p.chains[t][|p.chains[t]| - 1] == c[j] && p.chains[t][0] == c[0]
  {
    hide Looped, Rotated, Inserted, Flowing, SameTraces, WorthCopying, Valid, Once, Copied, Indexed, Chain, Before;
    ghost var s := p.S();
    LoopedIn(s, g0, t, pos);
    RotatedEnds(c, pos, j);
    SameTracesBut(s, s, t);
    pos' := pos;
    if SingleSucc(p.g, prev) {
      var e := p.g.succs[prev][0];
      EdgeOf(p.g, prev, 0);
      OnlyFlow(p.g, c, pos);
      var header := p.g.edges[e].dest;
      HeaderIn(s, g0, t, pos, c, j);
      var copy := p.CopyBbP(header, false);
      if p.g.info[header].condJump && copy && !p.g.info[header].crossingNote {
        var n := p.CopyBb(header, e, prev, t + 1, t, pos - 1);
        CopiedLooped(s, p.S(), g0, header, e, t, pos);
        SameTracesCopied(s, p.S(), header, e, t, pos - 1);
        InsertedEnds(Rotated(c, pos, j), pos - 1, |s.aux|);
        CopiedChains(s, p.S(), header, e, t, pos - 1, t + 1);
        pos' := pos + 1;
      }
    }
  }

  lemma OnlyFlow(g: Graph, c: seq<nat>, pos: nat)
    requires Flowing(g, c) && 0 < pos < |c| && c[pos - 1] < |g.succs| && SingleSucc(g, c[pos - 1])
    requires g.succs[c[pos - 1]][0] < |g.edges|
    ensures g.edges[g.succs[c[pos - 1]][0]].dest == c[pos]
  {
    assert Flows(g, c[pos - 1], c[pos - 1 + 1]);
  }

  lemma HeaderIn(s: State, g0: Graph, t: nat, pos: nat, c: seq<nat>, j: nat)
    requires Looped(s, g0, t, pos) && Once(c) && pos <= j < |c| && s.chains[t] == Rotated(c, pos, j)
    ensures c[pos] in s.chains[t] && 1 < c[pos] < |s.g.info| == |s.visited| && s.visited[c[pos]] == t + 1
    ensures s.chains[t][0] < |s.g.info| && s.g.info[c[pos]].partition == s.g.info[s.chains[t][0]].partition
  {
    RotatedMembers(c, pos, j);
    assert c[pos] in c;
    var k :| 0 <= k < |s.chains[t]| && s.chains[t][k] == c[pos];
    InChain(s, t, k);
    assert OneColour(s.g, s.chains[t]);
  }

  lemma CopiedLooped(s: State, r: State, g0: Graph, header: nat, e: nat, t: nat, pos: nat)
    requires Looped(s, g0, t, pos) && pos > 0 && Copied(s, r, header, e, t, pos - 1, t + 1)
    requires 1 < header < |s.visited| && s.visited[header] == t + 1 && header < |s.g.info|
    requires s.chains[t][0] < |s.g.info| && s.g.info[header].partition == s.g.info[s.chains[t][0]].partition
    requires s.g.edges[e].src < |s.visited| && s.visited[s.g.edges[e].src] > 0
    ensures Looped(r, g0, t, pos + 1)
  {
    hide Valid, Owned, Coloured, SinceStart, Loose, Queued, Chained, ClosedBut, Duplicated, Covered;
    CopiedBase(s, r, g0, header, e, t, pos - 1);
    CopiedChained(s, r, header, e, t, pos - 1, t + 1, s.chains[t][pos]);
    CopiedClosed(s, r, header, e, t, pos - 1, NONE);
    CopiedClosed0(s, r, g0, header, e, t, pos - 1, NONE);
  }

  lemma InsertedEnds(c: seq<nat>, k: nat, n: nat)
    requires k + 1 < |c|
    ensures var d := Inserted(c, k, n); |d| == |c| + 1 && d[0] == c[0] && d[|d| - 1] == c[|c| - 1]
  {}

  lemma CopiedChains(s: State, r: State, block: nat, e: nat, t: nat, k: nat, trace: nat)
    requires Copied(s, r, block, e, t, k, trace)
    ensures t < |s.chains| && k < |s.chains[t]| && r.chains == s.chains[t := Inserted(s.chains[t], k, |s.aux|)]
  {}

  /** rotate_loop: the loop at the end of trace t, whose last block leads back to block number pos, is rotated. */
  method RotateLoop(p: Layout, ghost g0: Graph, backEdge: nat, t: nat, ghost pos: nat, ghost v: View) returns (last: nat)
    requires Looped(p.S(), g0, t, pos) && Flowing(p.g, p.chains[t]) && Sees(p, v) && Within(v, p.chains[t])
    requires backEdge < |p.g.edges| && p.g.edges[backEdge].dest == p.chains[t][pos]
    requires p.g.edges[backEdge].src == p.chains[t][|p.chains[t]| - 1]
    requires t < |p.traces| && p.traces[t].first == p.chains[t][0]
    modifies p
    ensures Complete(p.S(), g0, t, last)
    ensures SameTraces(old(p.S()), p.S(), t) && p.heaps == old(p.heaps)
    ensures t < |p.chains| && p.chains[t] != [] && p.traces == old(p.traces)[t := old(p.traces)[t].(first := p.chains[t][0])]
    ensures GoodEnd(old(p.S()), t + 1, old(p.chains[t][pos..]), last)
    ensures p.chains[t] == RotatedFor(v, old(p.chains[t]), pos, t + 1)
  {
    hide Looped, BestOf, Rotated, GoodEnd, Complete, Flowing, SameTraces, Valid, Once, Chain, ScanList, EdgesOut, Inserted, HeaderToCopy;
    ghost var s := p.S();
    LoopedIn(s, g0, t, pos);
    ghost var c := p.chains[t];
    var dest := p.g.edges[backEdge].dest;
    var best := ScanLoop(p, g0, dest, t, pos, v);
    ghost var pos' := pos;
    BestIn(s, t + 1, c, pos, best);
    if best.bb != NONE {
      last := best.bb;
      pos' := RotateTo(p, g0, dest, t, pos, last, PosOf(c, best.bb), v);
    } else {
      // No suitable loop tail was found, so no rotation.
      last := p.g.edges[backEdge].src;
      NotRotated(s.aux, c, pos);
      SameTracesBut(s, s, t);
    }
    BestIsGood(s, t + 1, c[pos..], best, last);
    ghost var q := p.S();
    LoopedEnd(q, g0, t, pos', last);
    p.aux := p.aux[last := NONE];
    SameTracesBut(q, p.S(), t);
    SameTracesTwice(s, q, p.S(), t);
  }

  /** The relinking that makes `last` the last block of the loop, whose end still leads back to its start. */
  method RotateTo(p: Layout, ghost g0: Graph, dest: nat, t: nat, ghost pos: nat, last: nat, ghost j: nat, ghost v: View)
    returns (ghost pos': nat)
    requires Looped(p.S(), g0, t, pos) && Flowing(p.g, p.chains[t]) && dest == p.chains[t][pos] && Sees(p, v) && Within(v, p.chains[t])
    requires pos <= j < |p.chains[t]| && last == p.chains[t][j]
    requires t < |p.traces| && p.traces[t].first == p.chains[t][0]
    modifies p
    ensures Looped(p.S(), g0, t, pos') && SameTraces(old(p.S()), p.S(), t) && p.heaps == old(p.heaps)
    ensures p.chains[t] != [] && p.chains[t][|p.chains[t]| - 1] == last
    ensures p.traces == old(p.traces)[t := old(p.traces)[t].(first := p.chains[t][0])]
    ensures var c := old(p.chains[t]);
      p.chains[t] == if pos > 0 && HeaderToCopy(v, c[pos - 1], c[pos]) then Inserted(Rotated(c, pos, j), pos - 1, |v.g.info|)
                     else Rotated(c, pos, j)
  {
    hide Looped, Rotated, Spliced, Inserted, HeaderToCopy, Flowing, SameTraces, Valid, Once, Chain;
    ghost var s := p.S();
    LoopedIn(s, g0, t, pos);
    ghost var c := p.chains[t];
    RotatedFacts(s.aux, c, pos, j);
    ghost var r := s.(aux := Spliced(s.aux, c, pos, j), chains := s.chains[t := Rotated(c, pos, j)]);
    SplicedLooped(s, r, g0, t, pos, j);
    SameTracesBut(s, r, t);
    pos' := pos;
    p.chains := r.chains;
    if dest == p.traces[t].first {
      p.traces := p.traces[t := p.traces[t].(first := p.aux[last])];
    } else {
      var prev := Predecessor(p, t, pos, dest, c);
      p.aux := p.aux[prev := p.aux[last]];
      pos' := CopyHeader(p, g0, t, pos, prev, c, j, v);
      SameTracesTwice(s, r, p.S(), t);
    }
  }

  // ---- closing a loop ----

  lemma ChosenIn(s: State, g0: Graph, t: nat, bb: nat, but: int)
    requires Chosen(s, g0, t, bb, but)
    ensures Sized(s) && 1 < bb < |s.visited| == |s.g.info| == |s.bbd| == |s.g.succs| == |s.g.preds| == |s.aux|
    ensures Indexed(s.g) && s.visited[bb] == t + 1
    ensures t < |s.chains| && |s.chains[t]| > 0 && s.chains[t][|s.chains[t]| - 1] == bb && s.chains[t][0] < |s.g.info|
    ensures s.g.info[s.chains[t][0]].partition == s.g.info[bb].partition
    ensures |s.visited| == |s.aux| && Flowing(s.g, s.chains[t])
  {
    InChain(s, t, |s.chains[t]| - 1);
    assert OneColour(s.g, s.chains[t]);
    hide Owned, Coloured, SinceStart, Loose, Queued;
  }

  lemma ChosenLooped(s: State, g0: Graph, t: nat, bb: nat, pos: nat)
    requires Complete(s, g0, t, bb) && pos < |s.chains[t]| && bb < |s.aux|
    ensures Looped(Linked(s, bb, s.chains[t][pos]), g0, t, pos)
  {
    hide Valid, Owned, Base, Queued, Chained, Flows, Covered;
    CompleteSplit(s, g0, t, bb);
    InChain(s, t, |s.chains[t]| - 1);
    LinkedLast(s, t, NONE, s.chains[t][pos]);
    LinkedBase(s, g0, bb, s.chains[t][pos]);
  }

  /** ENTRY_BLOCK_PTR->next_bb */
  function AfterEntry(g: Graph): int {
    if |g.info| > ENTRY then g.info[ENTRY].next else NONE
  }

  /** A loop of at least 4 iterations whose header is not the first block of the function is rotated. */
  predicate ToRotate(v: View, bb: nat, best: nat)
    requires Indexed(v.g) && best < |v.g.edges|
  {
    var dest := v.g.edges[best].dest;
    dest != bb && EdgeFrequency(v.g, best) > Quot(4 * v.g.info[dest].frequency, 5) && dest != AfterEntry(v.g)
  }

  /** The header of a loop of less is copied if that is worth it and nothing else follows. */
  predicate ToCopy(v: View, bb: nat, best: nat)
    requires Indexed(v.g) && best < |v.g.edges| && bb < |v.g.info|
  {
    var dest := v.g.edges[best].dest;
    dest != bb && EdgeFrequency(v.g, best) <= Quot(4 * v.g.info[dest].frequency, 5)
    && SingleSucc(v.g, bb) && WorthCopying(v.g, v.jumpLength, v.maxGrow, dest, !v.optimizeSize)
  }

  /** What becomes of the chain c of trace number n, when the best edge out of its last block leads back into it. */
  ghost function ClosedChain(v: View, c: seq<nat>, best: nat, n: nat): seq<nat>
    requires Within(v, c) && c != [] && best < |v.g.edges| && v.g.edges[best].dest in c
  {
    var bb := c[|c| - 1];
    if ToRotate(v, bb, best) then RotatedFor(v, c, PosOf(c, v.g.edges[best].dest), n)
    else if ToCopy(v, bb, best) then c + [|v.g.info|]
    else c
  }

  /** The trace has come back to one of its own blocks. Returns the block it ends with. */
  method CloseLoop(p: Layout, ghost g0: Graph, bb: nat, best: nat, t: nat, ghost v: View) returns (last: nat)
    requires best < |p.g.edges| && Chosen(p.S(), g0, t, bb, p.g.edges[best].dest) && Choice(p.S(), bb, best, t + 1)
    requires p.visited[p.g.edges[best].dest] == t + 1 && Sees(p, v)
    requires t < |p.traces| && p.traces[t].first == p.chains[t][0]
    modifies p
    ensures Complete(p.S(), g0, t, last) && SameTraces(old(p.S()), p.S(), t) && p.heaps == old(p.heaps)
    ensures |p.traces| == |old(p.traces)| && p.traces[t].first == p.chains[t][0]
    ensures forall u :: 0 <= u < |p.traces| && u != t ==> p.traces[u] == old(p.traces[u])
    ensures Within(v, old(p.chains[t])) && v.g.edges[best].dest in old(p.chains[t])
    ensures p.chains[t] == ClosedChain(v, old(p.chains[t]), best, t + 1)
    ensures p.traces[t].length == old(p.traces[t].length) + if ToCopy(v, bb, best) then 1 else 0
    ensures ToCopy(v, bb, best) ==> Copied(old(p.S()), p.S(), v.g.edges[best].dest, best, t, |old(p.chains[t])| - 1, t + 1)
    ensures !ToRotate(v, bb, best) && !ToCopy(v, bb, best) ==> p.S() == old(p.S()) && p.traces == old(p.traces) && last == bb
    ensures t < |p.chains| && p.chains[t] != [] && t < |old(p.chains)| && old(p.chains[t]) != []
    ensures old(p.chains[t][0] == AfterEntry(p.g)) ==> p.chains[t][0] == old(p.chains[t][0])
  {
    hide Base, Chosen, Complete, Flowing, SameTraces, Valid, GoodEnd, Indexed, Chained, ClosedBut, WorthCopying, RotatedFor;
    ghost var s := p.S();
    ChosenIn(s, g0, t, bb, p.g.edges[best].dest);
    SameTracesBut(s, s, t);
    var dest := p.g.edges[best].dest;
    last := bb;
    ChosenComplete(s, g0, t, bb, dest);
    ChosenBase(s, g0, t, bb, dest);
    ChainWithin(s, g0, v, t, dest);
    // Nothing is done with one basic block loops.
    if dest != bb {
      if EdgeFrequency(p.g, best) > Quot(4 * p.g.info[dest].frequency, 5) {
        // The loop has at least 4 iterations. It is rotated if its header is not the first block of the function.
        if dest != AfterEntry(p.g) {
          last := CloseByRotation(p, g0, bb, best, t, v);
          RotatedFirst(v, s.chains[t], PosOf(s.chains[t], dest), t + 1);
        }
      } else {
        // The loop has less than 4 iterations.
        var copy := p.CopyBbP(dest, !p.optimizeSize);
        if SingleSucc(p.g, bb) && copy {
          last := CloseByCopy(p, g0, bb, best, t);
          p.traces := p.traces[t := p.traces[t].(length := p.traces[t].length + 1)];
        }
      }
    }
  }

  /** Rotation from another block on does not change the first one. */
  lemma RotatedFirst(v: View, c: seq<nat>, pos: nat, n: nat)
    requires Within(v, c) && pos < |c|
    ensures var d := RotatedFor(v, c, pos, n); d != [] && (pos > 0 ==> d[0] == c[0])
  {}

  /** The blocks of a chain are blocks of the graph, and those of its number are in it. */
  lemma ChainWithin(s: State, g0: Graph, v: View, t: nat, dest: nat)
    requires Base(s, g0) && t < |s.chains| && v.g == s.g && v.visited == s.visited && |v.starts| == |s.bbd|
    ensures Within(v, s.chains[t])
    ensures dest < |s.visited| && s.visited[dest] == t + 1 ==> dest in s.chains[t]
  {
    assert Lists(s.visited, s.chains[t], t + 1);
  }

  method CloseByRotation(p: Layout, ghost g0: Graph, bb: nat, best: nat, t: nat, ghost v: View) returns (last: nat)
    requires best < |p.g.edges| && Complete(p.S(), g0, t, bb) && Choice(p.S(), bb, best, t + 1) && Flowing(p.g, p.chains[t])
    requires Sees(p, v) && Within(v, p.chains[t]) && p.g.edges[best].dest in p.chains[t]
    requires t < |p.traces| && p.traces[t].first == p.chains[t][0]
    modifies p
    ensures Complete(p.S(), g0, t, last) && SameTraces(old(p.S()), p.S(), t) && p.heaps == old(p.heaps)
    ensures |p.traces| == |old(p.traces)| && t < |p.chains| && p.chains[t] != []
    ensures p.traces[t] == old(p.traces[t]).(first := p.chains[t][0])
    ensures forall u :: 0 <= u < |p.traces| && u != t ==> p.traces[u] == old(p.traces[u])
    ensures p.chains[t] == RotatedFor(v, old(p.chains[t]), PosOf(old(p.chains[t]), v.g.edges[best].dest), t + 1)
  {
    hide Flowing, SameTraces, Valid, GoodEnd, RotatedFor, Indexed, Chained, ClosedBut, Looped, Base, Chain;
    ghost var s := p.S();
    var dest := p.g.edges[best].dest;
    CompleteIn(s, g0, t, bb);
    LeavesFlows(p.g, bb, best);
    ghost var pos := PosOf(p.chains[t], dest);
    ChosenLooped(s, g0, t, bb, pos);
    p.aux := p.aux[bb := dest];
    ghost var r := p.S();
    LoopedData(r, g0, t, pos, p.bbd[dest := p.bbd[dest].(inTrace := t)]);
    p.bbd := p.bbd[dest := p.bbd[dest].(inTrace := t)];
    SameTracesData(s, p.S(), t);
    ghost var q := p.S();
    last := RotateLoop(p, g0, best, t, pos, v);
    SameTracesTwice(s, q, p.S(), t);
  }

  lemma CompleteIn(s: State, g0: Graph, t: nat, bb: nat)
    requires Complete(s, g0, t, bb)
    ensures Valid(s.g) && Base(s, g0) && t < |s.chains| && |s.chains[t]| > 0 && s.chains[t][|s.chains[t]| - 1] == bb
    ensures bb < |s.aux| == |s.bbd| == |s.visited| == |s.g.info|
  {
    InChain(s, t, |s.chains[t]| - 1);
    hide Owned, Coloured, SinceStart, Loose, Queued;
  }

  /** in_trace plays no part. */
  lemma LoopedData(s: State, g0: Graph, t: nat, pos: nat, bbd: seq<Data>)
    requires Looped(s, g0, t, pos) && |bbd| == |s.bbd|
    requires forall b :: 0 <= b < |bbd| ==> bbd[b].heap == s.bbd[b].heap
    ensures Looped(s.(bbd := bbd), g0, t, pos)
  {
    hide Owned, Coloured, SinceStart, Loose, Valid, Chained, Flows;
    var r := s.(bbd := bbd);
    SameChains(s, r, g0);
    forall d: nat ensures Covered(r, d) <==> Covered(s, d) {}
    hide Covered;
  }

  lemma SameChains(s: State, r: State, g0: Graph)
    requires r == s.(bbd := r.bbd, heaps := r.heaps)
    ensures Owned(r) <==> Owned(s)
    ensures Coloured(r) <==> Coloured(s)
    ensures Loose(r) <==> Loose(s)
    ensures SinceStart(r, g0) <==> SinceStart(s, g0)
    ensures forall t, end :: Chained(r, t, end) <==> Chained(s, t, end)
  {
    hide Chain, OneColour, Lists, SameOut;
  }

  lemma SameTracesData(s: State, r: State, t: nat)
    requires r == s.(aux := r.aux, bbd := r.bbd) && SameEnds(s.bbd, r.bbd)
    requires forall b :: 0 <= b < |s.bbd| ==> r.bbd[b].heap == s.bbd[b].heap
    ensures SameTraces(s, r, t)
  {}

  method CloseByCopy(p: Layout, ghost g0: Graph, bb: nat, best: nat, t: nat) returns (last: nat)
    requires best < |p.g.edges| && Complete(p.S(), g0, t, bb) && Choice(p.S(), bb, best, t + 1)
    requires p.visited[p.g.edges[best].dest] == t + 1
    requires p.chains[t][0] < |p.g.info| && p.g.info[p.chains[t][0]].partition == p.g.info[bb].partition
    modifies p`g, p`aux, p`visited, p`bbd, p`chains
    ensures Complete(p.S(), g0, t, last) && SameTraces(old(p.S()), p.S(), t)
    ensures p.chains[t][0] == old(p.chains[t][0]) && p.chains[t] == old(p.chains[t]) + [|old(p.g.info)|]
    ensures Copied(old(p.S()), p.S(), old(p.g.edges[best].dest), best, t, |old(p.chains[t])| - 1, t + 1)
  {
    hide SameTraces, Valid, Chained, ClosedBut, Base, Copied, Flows;
    ghost var s := p.S();
    var dest := p.g.edges[best].dest;
    CompleteIn(s, g0, t, bb);
    LeavesFlows(p.g, bb, best);
    BaseSized(s, g0, t, |s.chains[t]| - 1);
    NotEnds(s, g0, dest);
    ghost var k := |p.chains[t]| - 1;
    last := p.CopyBb(dest, best, bb, t + 1, t, k);
    CopiedBase(s, p.S(), g0, dest, best, t, k);
    CopiedChained(s, p.S(), dest, best, t, k, t + 1, NONE);
    CopiedClosed(s, p.S(), dest, best, t, k, NONE);
    CopiedClosed0(s, p.S(), g0, dest, best, t, k, NONE);
    SameTracesCopied(s, p.S(), dest, best, t, k);
    CopiedChains(s, p.S(), dest, best, t, k, t + 1);
    CopiedSizes(s, p.S(), dest, best, t, k, t + 1);
  }

  lemma NotEnds(s: State, g0: Graph, b: nat)
    requires Base(s, g0) && b < |s.visited| && s.visited[b] > 0
    ensures b > 1
  {}

  lemma BaseSized(s: State, g0: Graph, t: nat, k: nat)
    requires Base(s, g0) && t < |s.chains| && k < |s.chains[t]|
    ensures Sized(s) && Owned(s) && s.chains[t][k] < |s.visited| && s.visited[s.chains[t][k]] == t + 1
  {
    InChain(s, t, k);
  }

  lemma CopiedSizes(s: State, r: State, block: nat, e: nat, t: nat, k: nat, trace: nat)
    requires Copied(s, r, block, e, t, k, trace)
    ensures |r.visited| == |s.visited| + 1
  {}

  // ---- one trace ----

  /** The blocks still to be considered in this round: not visited and not put off to the next one. */
  ghost function Waiting(s: State, h: nat): set<nat>
    requires |s.bbd| == |s.visited|
  {
    set b: nat | b < |s.visited| && s.visited[b] == 0 && s.bbd[b].heap != h + 1
  }

  /** What forming trace t in round h leaves alone. */
  ghost predicate Grown(s: State, r: State, t: nat, h: nat) {
    && |r.chains| == |s.chains| && (forall u :: 0 <= u < |s.chains| && u != t ==> r.chains[u] == s.chains[u])
    && SameEnds(s.bbd, r.bbd) && |r.heaps| == |s.heaps|
    && (forall x :: 0 <= x < |s.heaps| && x != h && x != h + 1 && s.heaps[x] == map[] ==> r.heaps[x] == map[])
    && |s.bbd| == |s.visited| && |r.bbd| == |r.visited| && Waiting(r, h) <= Waiting(s, h)
  }

  lemma GrownTwice(s: State, r: State, q: State, t: nat, h: nat)
    requires Grown(s, r, t, h) && Grown(r, q, t, h)
    ensures Grown(s, q, t, h)
  {}

  lemma GrownVisited(s: State, bb: nat, t: nat, h: nat)
    requires Queued(s) && bb < |s.bbd| && t < |s.chains|
    ensures Grown(s, Visited(s, bb, t), t, h) && bb !in Waiting(Visited(s, bb, t), h)
  {
    DequeuedQueued(s, bb);
  }

  lemma GrownQueueing(s: State, r: State, t: nat, h: nat)
    requires Queueing(s, r, h) && |s.bbd| == |s.visited|
    ensures Grown(s, r, t, h)
  {
    forall x | 0 <= x < |s.heaps| && x != h && x != h + 1 && s.heaps[x] == map[] ensures r.heaps[x] == map[] {
      assert r.heaps[x].Keys == s.heaps[x].Keys == {};
    }
  }

  lemma GrownSame(s: State, r: State, t: nat, h: nat)
    requires SameTraces(s, r, t) && |s.bbd| == |s.visited| && |r.bbd| == |r.visited|
    ensures Grown(s, r, t, h)
  {}

  lemma GrownLinked(s: State, b: nat, next: int, bbd: seq<Data>, t: nat, h: nat)
    requires b < |s.aux| && SameEnds(s.bbd, bbd) && |bbd| == |s.bbd| == |s.visited|
    requires forall x :: 0 <= x < |bbd| ==> bbd[x].heap == s.bbd[x].heap
    ensures Grown(s, Linked(s, b, next).(bbd := bbd), t, h)
  {}

  lemma OpenData(s: State, g0: Graph, t: nat, bb: nat, bbd: seq<Data>)
    requires Open(s, g0, t, bb) && |bbd| == |s.bbd|
    requires forall b :: 0 <= b < |bbd| ==> bbd[b].heap == s.bbd[b].heap
    ensures Open(s.(bbd := bbd), g0, t, bb)
  {
    hide Owned, Coloured, SinceStart, Loose, Valid, Chained, Flows, OneColour;
    var r := s.(bbd := bbd);
    SameChains(s, r, g0);
    forall d: nat ensures Covered(r, d) <==> Covered(s, d) {}
    hide Covered;
  }

  /** Going on with the trace at another block: the successor chosen, or the block of a triangle in between. */
  method Extend(p: Layout, ghost g0: Graph, bb: nat, best: nat, t: nat, ghost h: nat, ghost v: View) returns (next: nat)
    requires best < |p.g.edges| && Chosen(p.S(), g0, t, bb, p.g.edges[best].dest) && Choice(p.S(), bb, best, t + 1)
    requires p.visited[p.g.edges[best].dest] == 0 && Sees(p, v) && SizedView(v)
    modifies p`aux, p`bbd
    ensures Open(p.S(), g0, t, next) && Grown(old(p.S()), p.S(), t, h) && Sees(p, v)
    ensures p.chains[t] != [] && p.chains == old(p.chains) && bb < |v.g.info|
    ensures v.g.edges[best].dest < |v.visited| && v.visited[v.g.edges[best].dest] == 0
    ensures next < |v.g.info| && exists e: nat :: TakenEdge(v, bb, best, e) && e < |v.g.edges| && v.g.edges[e].dest == next
  {
    hide Base, Chosen, Open, Grown, Valid, Indexed, Flows, TakenEdge;
    ghost var s := p.S();
    ghost var but := p.g.edges[best].dest;
    ChosenIn(s, g0, t, bb, but);
    ChosenBase(s, g0, t, bb, but);
    var e := Triangle(p, g0, bb, best, v);
    next := p.g.edges[e].dest;
    LeavesFlows(p.g, bb, e);
    if e != best { BetweenFlows(s, bb, best, e); }
    ExtendOpen(s, g0, t, bb, but, next);
    ghost var bbd := p.bbd[next := p.bbd[next].(inTrace := t)];
    OpenData(Linked(s, bb, next), g0, t, next, bbd);
    GrownLinked(s, bb, next, bbd, t, h);
    p.aux := p.aux[bb := next];
    p.bbd := p.bbd[next := p.bbd[next].(inTrace := t)];
  }

  /** How trace number n came about, when v was to be seen before it: the blocks of `grown` followed one another until
      there was no edge to go on along, or it led back into them. Its length does not count a copied loop header. */
  ghost predicate Formed(v: View, n: nat, th: Thresholds, grown: seq<nat>, chain: seq<nat>, length: int) {
    && grown != [] && Within(v, grown) && GrownBy(v, n, th, grown)
    && var w, bb := Along(v, grown, n), grown[|grown| - 1];
       var best := BestNext(w, bb, n, th);
       if best == NONE then chain == grown && length == |grown|
       else
         && w.g.edges[best].dest in grown && chain == ClosedChain(w, grown, best, n)
         && length == |grown| + if ToCopy(w, bb, best) then 1 else 0
  }

  lemma {:induction false} MarkedIn(visited: seq<nat>, c: seq<nat>, n: nat, b: nat)
    requires b in c && b < |visited|
    ensures MarkAll(visited, c, n)[b] == n
  {
    var k: nat := |c| - 1;
    if b != c[k] {
      assert c == c[..k] + [c[k]];
      MarkedIn(visited, c[..k], n, b);
    }
  }

  /** There is one way to go on with a trace at most. */
  lemma FollowsOnce(v: View, bb: nat, n: nat, th: Thresholds, x: nat, y: nat)
    requires SizedView(v) && bb < |v.g.info| && Follows(v, bb, n, th, x) && Follows(v, bb, n, th, y)
    ensures x == y
  {
    hide OnSide, PredsOk, CrossingOk, SuccsOk;
    var best := BestNext(v, bb, n, th);
    var e: nat :| TakenEdge(v, bb, best, e) && e < |v.g.edges| && v.g.edges[e].dest == x;
    var f: nat :| TakenEdge(v, bb, best, f) && f < |v.g.edges| && v.g.edges[f].dest == y;
    hide BestNext, TakenEdge;
    if e != best { OneSide(v, bb, best, e, f); } else if f != best { OneSide(v, bb, best, f, e); }
  }

  lemma OneSide(v: View, bb: nat, best: nat, e: nat, f: nat)
    requires SizedView(v) && bb < |v.g.info| && best < |v.g.edges| && e != best
    requires TakenEdge(v, bb, best, e) && TakenEdge(v, bb, best, f)
    ensures e == f
  {
    hide OnSide, PredsOk, CrossingOk, SuccsOk;
    var i :| 0 <= i < |v.g.succs[bb]| && v.g.succs[bb][i] == e && OnSide(v, bb, best, e)
             && forall k :: 0 <= k < i ==> NotOnSide(v, bb, best, k);
    assert !NotOnSide(v, bb, best, i);
    if f != best {
      var j :| 0 <= j < |v.g.succs[bb]| && v.g.succs[bb][j] == f && OnSide(v, bb, best, f)
               && forall k :: 0 <= k < j ==> NotOnSide(v, bb, best, k);
      assert !NotOnSide(v, bb, best, j);
    }
  }

  lemma {:induction false} SameGrown(v: View, n: nat, th: Thresholds, c: seq<nat>, d: seq<nat>, k: nat)
    requires SizedView(v) && GrownBy(v, n, th, c) && GrownBy(v, n, th, d) && 0 < k <= |c| && k <= |d| && c[0] == d[0]
    ensures c[..k] == d[..k]
  {
    hide GrownBy, Valid, MarkAll;
    if k > 1 {
      SameGrown(v, n, th, c, d, k - 1);
      SameNext(v, n, th, c, d, k - 2);
      assert c[..k] == c[..k - 1] + [c[k - 1]] && d[..k] == d[..k - 1] + [d[k - 1]];
    }
  }

  lemma SameNext(v: View, n: nat, th: Thresholds, c: seq<nat>, d: seq<nat>, i: nat)
    requires SizedView(v) && GrownBy(v, n, th, c) && GrownBy(v, n, th, d) && i + 1 < |c| && i + 1 < |d| && c[..i + 1] == d[..i + 1]
    ensures c[i + 1] == d[i + 1]
  {
    hide Follows, Valid, MarkAll;
    assert c[i] == c[..i + 1][i] && d[i] == d[..i + 1][i];
    var w := Along(v, c[..i + 1], n);
    assert GrowsAt(v, n, th, c, i) && GrowsAt(v, n, th, d, i);
    FollowsOnce(w, c[i], n, th, c[i + 1], d[i + 1]);
  }

  /** A trace that can end does not go on. */
  lemma FormedLongest(v: View, n: nat, th: Thresholds, c: seq<nat>, chain: seq<nat>, length: int, d: seq<nat>)
    requires n > 0 && Formed(v, n, th, c, chain, length) && GrownBy(v, n, th, d) && |d| >= |c| && c[0] == d[0]
    ensures d == c
  {
    hide TakenEdge, BestNext, ClosedChain, MarkAll;
    SameGrown(v, n, th, c, d, |c|);
    assert c[..|c|] == c;
    if |d| > |c| {
      var i: nat := |c| - 1;
      assert d[i] == d[..|c|][i];
      assert d[..i + 1] == c;
      assert GrowsAt(v, n, th, d, i);
      var w := Along(v, c, n);
      MarkedIn(v.visited, c, n, w.g.edges[BestNext(w, c[i], n, th)].dest);
    }
  }

  /** The trace that begins with a block is determined. */
  lemma FormedOnce(v: View, n: nat, th: Thresholds, c: seq<nat>, x: seq<nat>, k: int, d: seq<nat>, y: seq<nat>, l: int)
    requires n > 0 && Formed(v, n, th, c, x, k) && Formed(v, n, th, d, y, l) && c[0] == d[0]
    ensures c == d && x == y && k == l
  {
    if |d| >= |c| { FormedLongest(v, n, th, c, x, k, d); } else { FormedLongest(v, n, th, d, y, l, c); }
  }

  /** A trace ends where no edge could be followed, where the edge picked leads to a block that is cheap to copy, or where
      it leads back into the trace. */
  lemma WhyEnded(v: View, n: nat, th: Thresholds, grown: seq<nat>, chain: seq<nat>, length: int)
    requires Formed(v, n, th, grown, chain, length)
    requires forall e :: 0 <= e < |v.g.edges| ==> v.g.edges[e].probability >= 0
    ensures var w, bb := Along(v, grown, n), grown[|grown| - 1];
      var e := Picked(w, bb, n, th, |w.g.succs[bb]|);
      if e == NONE then forall k: nat :: !FollowableAt(w, bb, n, th, k)
      else (exists k: nat :: FollowableAt(w, bb, n, th, k) && w.g.succs[bb][k] == e)
           && (CheapToCopy(w, w.g.edges[e].dest) || w.g.edges[e].dest in grown)
  {
    hide GrownBy, ClosedChain, MarkAll, Followable, CheapToCopy, ToCopy;
    var w, bb := Along(v, grown, n), grown[|grown| - 1];
    PickedMeaning(w, bb, n, th, |w.g.succs[bb]|);
    var e := Picked(w, bb, n, th, |w.g.succs[bb]|);
    if e != NONE {
      var k: nat :| k < |w.g.succs[bb]| && Ahead(w, bb, k) && w.g.succs[bb][k] == e && Followable(w, bb, e, n, th);
      assert FollowableAt(w, bb, n, th, k);
    }
  }

  lemma ChosenBase(s: State, g0: Graph, t: nat, bb: nat, but: int)
    requires Chosen(s, g0, t, bb, but)
    ensures Base(s, g0) && Valid(s.g)
  {}

  lemma BetweenFlows(s: State, bb: nat, best: nat, e: nat)
    requires Between(s, bb, best, e)
    ensures Flows(s.g, s.g.edges[e].dest, s.g.edges[best].dest)
  {}

  ghost function Unvisited(s: State): set<nat> {
    set b: nat | b < |s.visited| && s.visited[b] == 0
  }

  /** Trace t, which began with bb0 when the state was s0, is to go on with bb. */
  ghost predicate Growing(s0: State, s: State, g0: Graph, t: nat, bb: nat, bb0: nat, h: nat) {
    && Open(s, g0, t, bb) && Grown(s0, s, t, h) && h + 1 < |s.heaps|
    && (if s.chains[t] == [] then bb == bb0 else s.chains[t][0] == bb0 && |s.bbd| == |s.visited| && bb0 !in Waiting(s, h))
  }

  /** It is complete and ends with bb. */
  ghost predicate Ended(s0: State, s: State, g0: Graph, t: nat, bb: nat, bb0: nat, h: nat) {
    Complete(s, g0, t, bb) && Grown(s0, s, t, h) && |s.bbd| == |s.visited| && bb0 !in Waiting(s, h)
  }

  lemma GrowingVisited(s0: State, s: State, g0: Graph, t: nat, bb: nat, bb0: nat, h: nat)
    requires Growing(s0, s, g0, t, bb, bb0, h)
    ensures Queued(s) && bb < |s.visited| == |s.bbd| && t < |s.chains| && (s.bbd[bb].heap != NONE ==> 0 <= s.bbd[bb].heap < |s.heaps|)
    ensures var r := Visited(s, bb, t);
      && Entered(r, g0, t, bb) && Grown(s0, r, t, h) && h + 1 < |r.heaps| && t < |r.chains| && r.chains[t] != [] && r.chains[t][0] == bb0
      && |r.bbd| == |r.visited| && bb0 !in Waiting(r, h) && Unvisited(r) < Unvisited(s)
  {
    OpenQueued(s, g0, t, bb);
    hide Open, Entered, Grown, Queued;
    VisitOpen(s, g0, t, bb);
    GrownVisited(s, bb, t, h);
    GrownTwice(s0, s, Visited(s, bb, t), t, h);
    GrownSubset(s, Visited(s, bb, t), t, h);
    assert bb in Unvisited(s) && bb !in Unvisited(Visited(s, bb, t));
  }

  lemma OpenQueued(s: State, g0: Graph, t: nat, bb: nat)
    requires Open(s, g0, t, bb)
    ensures Queued(s) && bb < |s.visited| == |s.bbd| && |s.chains| == t + 1 && s.visited[bb] == 0
    ensures s.bbd[bb].heap != NONE ==> 0 <= s.bbd[bb].heap < |s.heaps|
  {}

  lemma GrownSubset(s: State, r: State, t: nat, h: nat)
    requires Grown(s, r, t, h)
    ensures |s.bbd| == |s.visited| && |r.bbd| == |r.visited| && |r.heaps| == |s.heaps| && Waiting(r, h) <= Waiting(s, h)
  {}

  /** The successor of bb to be placed after it. If the best one can be duplicated cheaper than a jump it is not
      chosen: it will be duplicated when the traces are connected. */
  method BestSuccessor(p: Layout, bb: nat, t: nat, th: Thresholds, ghost v: View) returns (best: int)
    requires Sized(p.S()) && bb < |p.g.info| && Sees(p, v)
    ensures best != NONE ==> best >= 0 && Choice(p.S(), bb, best, t + 1)
    ensures best == BestNext(v, bb, t + 1, th)
  {
    best := SelectSuccessor(p, bb, t + 1, th, v);
    if best != NONE {
      var dest := p.g.edges[best].dest;
      var copy := p.CopyBbP(dest, false);
      if |p.g.preds[dest]| >= 2 && copy { best := NONE; }
    }
  }

  ghost predicate OthersSame(was: seq<Trace>, now: seq<Trace>, t: nat) {
    t < |now| == |was| && forall u :: 0 <= u < |now| && u != t ==> now[u] == was[u]
  }

  predicate StartsOf(traces: seq<Trace>, chains: seq<seq<nat>>, t: nat) {
    t < |traces| && t < |chains| && chains[t] != [] && traces[t].first == chains[t][0]
  }

  /** Trace t ends with bb, and best is the edge it is to go on along. */
  ghost predicate Selected(s0: State, s: State, g0: Graph, t: nat, bb: nat, best: int, bb0: nat, h: nat) {
    && NONE <= best < |s.g.edges| && Chosen(s, g0, t, bb, if best == NONE then NONE else s.g.edges[best].dest)
    && (best != NONE ==> Choice(s, bb, best, t + 1))
    && Grown(s0, s, t, h) && h + 1 < |s.heaps| && |s.bbd| == |s.visited| && bb0 !in Waiting(s, h)
    && t < |s.chains| && s.chains[t] != [] && s.chains[t][0] == bb0
  }

  /** The first part of a turn of the do loop: bb becomes part of trace t, a successor is selected, and the others go into
      the heaps. */
  method TakeIn(p: Layout, ghost g0: Graph, bb: nat, t: nat, th: Thresholds, h: nat, ghost s0: State, ghost bb0: nat, ghost v: View)
    returns (best: int)
    requires t < |p.traces| && Growing(s0, p.S(), g0, t, bb, bb0, h) && Seen(p, v, t, th, bb)
    modifies p
    ensures Selected(s0, p.S(), g0, t, bb, best, bb0, h)
    ensures t < |old(p.chains)| && p.chains == old(p.chains)[t := old(p.chains[t]) + [bb]]
    ensures var w := Along(v, p.chains[t], t + 1); Sees(p, w) && best == BestNext(w, bb, t + 1, th)
    ensures p.traces == old(p.traces)[t := old(p.traces[t]).(length := |p.chains[t]|)] && LastKept(th, old(p.heaps), p.heaps, h)
    ensures p.g == old(p.g) && Unvisited(p.S()) < old(Unvisited(p.S()))
    ensures bb < |old(p.bbd)| && bb < |old(p.visited)| && h + 1 < |old(p.heaps)|
    ensures var r := old(Visited(p.S(), bb, t));
      Sized(r) && bb < |r.g.info| && |r.heaps| == |old(p.heaps)| && p.S() == AfterEdges(r, bb, |r.g.succs[bb]|, best, th, h)
  {
    hide Base, Chosen, Open, Grown, Valid, Indexed, Complete, Entered, Choice, Visited, Queueing, Waiting, Unvisited, Queued;
    hide GrownBy, BestNext, Shows, MarkAll, AfterEdges;
    GrowingVisited(s0, p.S(), g0, t, bb, bb0, h);
    VisitedHeaps(p.S(), bb, t);
    ShowsVisited(v, p.S(), p.chains[t], bb, t);
    MarkBbVisited(p, bb, t + 1);
    ghost var w := Along(v, p.chains[t], t + 1);
    p.traces := p.traces[t := p.traces[t].(length := p.traces[t].length + 1)];
    ghost var r := p.S();
    EnteredIn(r, g0, t, bb);
    BaseIsSized(r, g0);
    best := BestSuccessor(p, bb, t, th, w);
    if best != NONE { ChoiceLeaves(r, bb, best, t + 1); }
    QueueSuccessors(p, g0, bb, best, th, h, t);
    QueueingSame(r, p.S(), h);
    ShowsQueueing(w, r, p.S(), h);
    QueueingGrown(s0, r, p.S(), t, h, bb0);
    if best != NONE { ChoiceSame(r, p.S(), bb, best, t + 1); }
  }

  /** One turn of the do loop that collects trace t. */
  method GrowStep(p: Layout, ghost g0: Graph, bb: nat, t: nat, th: Thresholds, h: nat, ghost s0: State, ghost bb0: nat, ghost v: View)
    returns (done: bool, next: nat)
    requires t < |p.traces| && p.traces[t].first == bb0
    requires Growing(s0, p.S(), g0, t, bb, bb0, h) && Seen(p, v, t, th, bb)
    modifies p
    ensures OthersSame(old(p.traces), p.traces, t) && LastKept(th, old(p.heaps), p.heaps, h)
    ensures var grown := old(p.chains[t]) + [bb];
      if done then t < |p.chains| && Formed(v, t + 1, th, grown, p.chains[t], p.traces[t].length)
      else Seen(p, v, t, th, next) && p.chains[t] == grown
    ensures if done then StartsOf(p.traces, p.chains, t) && Ended(s0, p.S(), g0, t, next, bb0, h)
            else p.traces[t].first == bb0 && Unvisited(p.S()) < old(Unvisited(p.S())) && Growing(s0, p.S(), g0, t, next, bb0, h)
    ensures !done ==> p.g == old(p.g)
    ensures done && bb0 == AfterEntry(old(p.g)) ==> p.traces[t].first == bb0
  {
    hide Base, Chosen, Open, Grown, Valid, Indexed, Complete, Choice, SameTraces, Waiting, Unvisited, Growing;
    hide GrownBy, BestNext, Shows, MarkAll, TakenEdge, ClosedChain, ToCopy, ToRotate;
    var best := TakeIn(p, g0, bb, t, th, h, s0, bb0, v);
    ghost var q, c := p.S(), p.chains[t];
    ghost var w := Along(v, c, t + 1);
    if best == NONE {
      ChosenComplete(q, g0, t, bb, NONE);
      return true, bb;
    }
    ChoiceSame(q, q, bb, best, t + 1);
    var dest := p.g.edges[best].dest;
    if p.visited[dest] == t + 1 {
      done := true;
      next := CloseLoop(p, g0, bb, best, t, w);
      ClosedGrown(s0, q, p.S(), g0, t, next, h, bb0);
    } else {
      done := false;
      next := Extend(p, g0, bb, best, t, h, w);
      GrownMore(v, t + 1, th, c, next);
      ExtendedGrown(s0, q, p.S(), t, h, bb0);
      GrowingOn(s0, p.S(), g0, t, next, bb0, h);
    }
  }

  lemma GrowingOn(s0: State, s: State, g0: Graph, t: nat, bb: nat, bb0: nat, h: nat)
    requires Open(s, g0, t, bb) && Grown(s0, s, t, h) && h + 1 < |s.heaps|
    requires t < |s.chains| && s.chains[t] != [] && s.chains[t][0] == bb0 && |s.bbd| == |s.visited| && bb0 !in Waiting(s, h)
    ensures Growing(s0, s, g0, t, bb, bb0, h)
  {}

  /** v is what was to be seen before trace t began; it is to go on with bb. */
  ghost predicate Seen(p: Layout, v: View, t: nat, th: Thresholds, bb: nat)
    reads p
  {
    && t < |p.chains| && t < |p.traces| && p.traces[t].length == |p.chains[t]|
    && Within(v, p.chains[t] + [bb]) && GrownBy(v, t + 1, th, p.chains[t] + [bb])
    && Sees(p, Along(v, p.chains[t], t + 1))
  }

  lemma ShowsVisited(v: View, s: State, c: seq<nat>, b: nat, t: nat)
    requires b < |s.bbd| && b < |s.visited| && t < |s.chains| && s.chains[t] == c
    requires Shows(Along(v, c, t + 1), s.g, s.visited, s.bbd)
    ensures var r := Visited(s, b, t);
      Shows(Along(v, c + [b], t + 1), r.g, r.visited, r.bbd) && r.chains == s.chains[t := c + [b]] && r.g == s.g
  {
    MarkMore(v.visited, c, b, t + 1);
  }

  lemma ShowsQueueing(v: View, s: State, r: State, h: nat)
    requires Shows(v, s.g, s.visited, s.bbd) && Queueing(s, r, h)
    ensures Shows(v, r.g, r.visited, r.bbd)
  {}

  lemma VisitedHeaps(s: State, b: nat, t: nat)
    requires b < |s.bbd| && b < |s.visited| && t < |s.chains|
    ensures var r := Visited(s, b, t);
      |r.heaps| == |s.heaps| && forall x :: 0 <= x < |s.heaps| && s.heaps[x] == map[] ==> r.heaps[x] == map[]
  {}

  lemma BaseIsSized(s: State, g0: Graph)
    requires Base(s, g0)
    ensures Sized(s)
  {}

  lemma ChoiceLeaves(s: State, bb: nat, best: nat, n: nat)
    requires Choice(s, bb, best, n)
    ensures Leaves(s.g, bb, best) && best < |s.g.edges| && s.g.edges[best].dest < |s.visited|
  {}

  lemma ChoiceSame(s: State, r: State, bb: nat, best: nat, n: nat)
    requires Choice(s, bb, best, n) && r.g == s.g && r.visited == s.visited
    ensures Choice(r, bb, best, n) && best < |r.g.edges| && r.g.edges[best].dest < |r.visited|
    ensures r.visited[r.g.edges[best].dest] == 0 || r.visited[r.g.edges[best].dest] == n
    ensures r.visited[r.g.edges[best].dest] == 0 ==> Choice(r, bb, best, 0)
  {}

  lemma QueueingGrown(s0: State, r: State, q: State, t: nat, h: nat, bb0: nat)
    requires Grown(s0, r, t, h) && Queueing(r, q, h) && |r.bbd| == |r.visited| && bb0 !in Waiting(r, h)
    ensures Grown(s0, q, t, h) && |q.bbd| == |q.visited| && bb0 !in Waiting(q, h) && Unvisited(q) == Unvisited(r)
  {
    GrownQueueing(r, q, t, h);
    GrownTwice(s0, r, q, t, h);
  }

  lemma ClosedGrown(s0: State, q: State, r: State, g0: Graph, t: nat, last: nat, h: nat, bb0: nat)
    requires Grown(s0, q, t, h) && |q.bbd| == |q.visited| && bb0 !in Waiting(q, h)
    requires SameTraces(q, r, t) && Complete(r, g0, t, last)
    ensures t < |r.chains| && r.chains[t] != [] && Ended(s0, r, g0, t, last, bb0, h)
  {
    CompleteIn(r, g0, t, last);
    hide Complete, Base;
    GrownSame(q, r, t, h);
    GrownTwice(s0, q, r, t, h);
  }

  lemma ExtendedGrown(s0: State, q: State, r: State, t: nat, h: nat, bb0: nat)
    requires Grown(s0, q, t, h) && |q.bbd| == |q.visited| && bb0 !in Waiting(q, h)
    requires Grown(q, r, t, h) && r.visited == q.visited
    ensures Grown(s0, r, t, h) && |r.bbd| == |r.visited| && |r.heaps| == |q.heaps| && bb0 !in Waiting(r, h)
    ensures Unvisited(r) == Unvisited(q)
  {
    GrownTwice(s0, q, r, t, h);
  }

  /** The do loop that collects trace t from block bb0 on. Returns its last block. */
  method GrowTrace(p: Layout, ghost g0: Graph, bb0: nat, t: nat, th: Thresholds, h: nat, ghost v: View)
    returns (last: nat, ghost grown: seq<nat>)
    requires t < |p.traces| && p.traces[t].first == bb0 && p.traces[t].length == 0
    requires t < |p.chains| && p.chains[t] == [] && h + 1 < |p.heaps|
    requires Open(p.S(), g0, t, bb0) && Sees(p, v)
    modifies p
    ensures t < |p.chains| && t < |p.traces| && Formed(v, t + 1, th, grown, p.chains[t], p.traces[t].length)
    ensures grown != [] && grown[0] == bb0
    ensures OthersSame(old(p.traces), p.traces, t) && StartsOf(p.traces, p.chains, t) && LastKept(th, old(p.heaps), p.heaps, h)
    ensures Ended(old(p.S()), p.S(), g0, t, last, bb0, h)
    ensures bb0 == AfterEntry(old(p.g)) ==> p.traces[t].first == bb0
  {
    ghost var s := p.S();
    last, grown := bb0, [];
    OpenQueued(s, g0, t, bb0);
    var done := false;
    while !done
      invariant if done then t < |p.chains| && t < |p.traces| && Formed(v, t + 1, th, grown, p.chains[t], p.traces[t].length)
                else Seen(p, v, t, th, last) && grown == p.chains[t]
      invariant (grown + [last])[0] == bb0 && (done ==> grown != [])
      invariant OthersSame(old(p.traces), p.traces, t) && LastKept(th, s.heaps, p.heaps, h)
      invariant if done then StartsOf(p.traces, p.chains, t) && Ended(s, p.S(), g0, t, last, bb0, h)
                else p.traces[t].first == bb0 && Growing(s, p.S(), g0, t, last, bb0, h)
      invariant !done ==> p.g == old(p.g)
      invariant done && bb0 == AfterEntry(old(p.g)) ==> p.traces[t].first == bb0
      decreases !done, Unvisited(p.S())
    {
      hide Growing, Ended, Unvisited, Open, Formed, Seen;
      grown := grown + [last];
      done, last := GrowStep(p, g0, last, t, th, h, s, bb0, v);
    }
  }

  // ---- one round ----

  /** Between traces: every trace is complete and known by its ends, and every successor of a visited block is taken care of. */
  ghost predicate Settled(s: State, g0: Graph, traces: seq<Trace>) {
    && Base(s, g0) && |g0.succs| <= |s.visited| && |s.chains| == |traces|
    && Chained(s, |traces|, NONE) && Ends(s, traces, |traces|)
    && ClosedBut(s, s.g, NONE) && ClosedBut(s, g0, NONE)
  }

  /** Heaps before number h are used up. */
  ghost predicate UsedUp(heaps: seq<map<nat, int>>, h: nat) {
    h <= |heaps| && forall x :: 0 <= x < h ==> heaps[x] == map[]
  }

  predicate Least(heap: map<nat, int>, b: nat) {
    b in heap && forall c :: c in heap ==> heap[b] <= heap[c]
  }

  /** The least key of a heap that is not empty. */
  lemma {:induction false} LeastKey(heap: map<nat, int>) returns (b: nat)
    requires heap != map[]
    ensures Least(heap, b)
    decreases |heap|
  {
    b :| b in heap;
    var rest := heap - {b};
    if rest != map[] {
      var d := LeastKey(rest);
      LeastOfTwo(heap, b, d);
      b := if heap[b] <= heap[d] then b else d;
    } else {
      forall c | c in heap ensures c == b {
        assert c == b || c in rest;
      }
    }
  }

  lemma LeastOfTwo(heap: map<nat, int>, b: nat, d: nat)
    requires b in heap && Least(heap - {b}, d)
    ensures d in heap && Least(heap, if heap[b] <= heap[d] then b else d)
  {
    forall c | c in heap && c != b ensures heap[d] <= heap[c] {
      assert c in heap - {b};
    }
  }

  lemma InHeap(s: State, g0: Graph, h: nat)
    requires Base(s, g0) && h < |s.heaps|
    ensures forall b :: b in s.heaps[h] ==> b < |s.bbd| && s.bbd[b].heap == h
  {}

  /** fibheap_extract_min: a block with the least key leaves the heap. */
  method ExtractMin(p: Layout, ghost g0: Graph, h: nat) returns (bb: nat)
    requires h < |p.heaps| && p.heaps[h] != map[]
    requires Base(p.S(), g0)
    modifies p`heaps, p`bbd
    ensures bb < |old(p.bbd)| && old(p.bbd)[bb].heap == h && p.S() == Dequeued(old(p.S()), bb)
    ensures Least(old(p.heaps)[h], bb)
  {
    hide Base;
    InHeap(p.S(), g0, h);
    ghost var least := LeastKey(p.heaps[h]);
    bb :| bb in p.heaps[h] && forall c :: c in p.heaps[h] ==> p.heaps[h][bb] <= p.heaps[h][c];
    p.heaps := p.heaps[h := p.heaps[h] - {bb}];
    p.bbd := p.bbd[bb := p.bbd[bb].(heap := NONE)];
  }

  /** A block that has left its heap is the only one not taken care of. */
  lemma ExtractedOpen(s: State, g0: Graph, traces: seq<Trace>, bb: nat, trace: Trace)
    requires Settled(s, g0, traces) && bb < |s.bbd| && s.bbd[bb].heap != NONE
    ensures var t := |traces|;
            var r := Dequeued(s, bb).(chains := s.chains + [[]]);
      Open(r, g0, t, bb)
  {
    DequeuedQueued(s, bb);
    var t := |traces|;
    var r := Dequeued(s, bb).(chains := s.chains + [[]]);
    assert Owned(r) by {
      hide Once;
      forall u | 0 <= u < |r.chains| ensures Lists(r.visited, r.chains[u], u + 1) {
        if u < t { assert Lists(s.visited, s.chains[u], u + 1); }
        assert Once([]);
      }
    }
    assert Base(r, g0) && Chained(r, t, bb) by {
      hide Valid, Flows, Chain, OneColour, SameOut, Owned, ClosedBut, Ends;
      assert Chain(r.aux, [], bb);
      assert OneColour(r.g, []);
      forall u | 0 <= u < t ensures Chain(r.aux, r.chains[u], NONE) && OneColour(r.g, r.chains[u]) {
        assert Chain(s.aux, s.chains[u], NONE) && OneColour(s.g, s.chains[u]);
      }
    }
    hide Valid, Chained, Base, Flows, Ends, Queued;
    forall d: nat | Covered(s, d) && d != bb ensures Covered(r, d) {}
    assert OneColour(r.g, [] + [bb]) && Flowing(r.g, [] + [bb]);
  }

  lemma DequeuedBase(s: State, g0: Graph, bb: nat)
    requires Base(s, g0) && bb < |s.bbd|
    ensures Base(Dequeued(s, bb), g0)
  {
    DequeuedQueued(s, bb);
    SameChains(s, Dequeued(s, bb), g0);
    hide Owned, Coloured, SinceStart, Loose, Valid, Queued;
  }

  /** A block that is put back into a heap. */
  lemma PutOff(s: State, g0: Graph, traces: seq<Trace>, bb: nat, h: nat, key: int)
    requires Settled(s, g0, traces) && bb < |s.bbd| && s.bbd[bb].heap != NONE && h + 1 < |s.heaps|
    ensures var r := Enqueued(Dequeued(s, bb), bb, h + 1, key);
      Settled(r, g0, traces) && |r.bbd| == |r.visited| == |s.visited| == |s.bbd| && Waiting(r, h) <= Waiting(s, h) && bb !in Waiting(r, h)
  {
    hide Base, Settled, Enqueued, Dequeued, Queued, Covered, Waiting, SameEnds;
    var q := Dequeued(s, bb);
    DequeuedIs(s, bb);
    var r := Enqueued(q, bb, h + 1, key);
    SettledBase(s, g0, traces);
    DequeuedQueued(s, bb);
    DequeuedBase(s, g0, bb);
    InBounds(s, g0, bb);
    EnqueuedBase(q, g0, bb, h + 1, key);
    forall d: nat | Covered(s, d) ensures Covered(r, d) { DequeuedCovers(s, bb, d); }
    SameEndsOf(s, bb, h + 1, key);
    SettledSame(s, r, g0, traces);
    WaitingLess(s, bb, h, key);
  }

  lemma DequeuedCovers(s: State, bb: nat, d: nat)
    requires Covered(s, d) && bb < |s.bbd|
    ensures Covered(Dequeued(s, bb), d) || d == bb
  {}

  lemma InBounds(s: State, g0: Graph, bb: nat)
    requires Base(s, g0) && bb < |s.bbd| && s.bbd[bb].heap != NONE
    ensures bb != ENTRY && bb != EXIT && |s.bbd| == |s.visited| && s.visited[bb] == 0
  {}

  lemma SameEndsOf(s: State, bb: nat, x: nat, key: int)
    requires bb < |s.bbd| && x < |s.heaps|
    ensures var r := Enqueued(Dequeued(s, bb), bb, x, key);
      r == s.(bbd := r.bbd, heaps := r.heaps) && SameEnds(s.bbd, r.bbd) && |r.bbd| == |s.bbd|
  {}

  lemma WaitingLess(s: State, bb: nat, h: nat, key: int)
    requires bb < |s.bbd| == |s.visited| && h + 1 < |s.heaps|
    ensures var r := Enqueued(Dequeued(s, bb), bb, h + 1, key);
      |r.bbd| == |r.visited| == |s.visited| && Waiting(r, h) <= Waiting(s, h) && bb !in Waiting(r, h)
  {}

  lemma SettledSame(s: State, r: State, g0: Graph, traces: seq<Trace>)
    requires Settled(s, g0, traces) && Base(r, g0) && r == s.(bbd := r.bbd, heaps := r.heaps)
    requires SameEnds(s.bbd, r.bbd) && |r.bbd| == |s.bbd|
    requires forall d: nat :: Covered(s, d) ==> Covered(r, d)
    ensures Settled(r, g0, traces)
  {
    SameChains(s, r, g0);
    EndsSame(s, r, traces, |traces|);
    hide Base, Flows, Chained, Covered, Ends;
  }

  lemma EndsSame(s: State, r: State, traces: seq<Trace>, t: nat)
    requires Ends(s, traces, t) && r.chains == s.chains && SameEnds(s.bbd, r.bbd)
    ensures Ends(r, traces, t)
  {
    forall u | 0 <= u < t ensures EndOf(r, traces, u) {
      assert EndOf(s, traces, u);
    }
  }

  /** d gets its key anew if it is in a heap. */
  ghost function Rekeyed(s: State, d: nat): (r: State)
    requires Sized(s) && d < |s.g.info|
    ensures Sized(r) && r.g == s.g
  {
    var at := s.bbd[d].heap;
    if d == EXIT || s.visited[d] > 0 || !(0 <= at < |s.heaps|) then s else Enqueued(s, d, at, KeyOf(s.g, s.bbd, d))
  }

  /** The same for the first n successors of bb. */
  ghost function Recounted(s: State, bb: nat, n: nat): (r: State)
    requires Sized(s) && bb < |s.g.info| && n <= |s.g.succs[bb]|
    ensures Sized(r) && r.g == s.g
  {
    if n == 0 then s
    else
      EdgeOf(s.g, bb, n - 1);
      Rekeyed(Recounted(s, bb, n - 1), s.g.edges[s.g.succs[bb][n - 1]].dest)
  }

  /** The successors of bb that are in a heap have the keys they should have. */
  ghost predicate KeysCounted(s: State, bb: nat, n: nat) {
    && Sized(s) && bb < |s.g.info| && n <= |s.g.succs[bb]|
    && forall i :: 0 <= i < n ==> KeyCounted(s, s.g.succs[bb][i])
  }

  ghost predicate KeyCounted(s: State, e: nat)
    requires Sized(s)
  {
    e < |s.g.edges| && var d := s.g.edges[e].dest;
    d != EXIT && s.visited[d] == 0 && 0 <= s.bbd[d].heap < |s.heaps| ==>
      d in s.heaps[s.bbd[d].heap] && s.heaps[s.bbd[d].heap][d] == KeyOf(s.g, s.bbd, d)
  }

  lemma {:induction false} RecountedKeys(s: State, bb: nat, n: nat)
    requires Sized(s) && bb < |s.g.info| && n <= |s.g.succs[bb]|
    ensures KeysCounted(Recounted(s, bb, n), bb, n)
    ensures var r := Recounted(s, bb, n); r.bbd == s.bbd && r.visited == s.visited && |r.heaps| == |s.heaps|
  {
    hide Valid, KeyOf;
    ValidShape(s.g);
    if n > 0 {
      RecountedKeys(s, bb, n - 1);
      EdgeOf(s.g, bb, n - 1);
      var q, r := Recounted(s, bb, n - 1), Recounted(s, bb, n);
      RekeyedKeys(q, s.g.edges[s.g.succs[bb][n - 1]].dest, bb, n - 1);
    }
  }

  lemma RekeyedKeys(s: State, d: nat, bb: nat, n: nat)
    requires KeysCounted(s, bb, n) && d < |s.g.info| && n < |s.g.succs[bb]| && s.g.succs[bb][n] < |s.g.edges|
    requires s.g.edges[s.g.succs[bb][n]].dest == d
    ensures var r := Rekeyed(s, d); KeysCounted(r, bb, n + 1) && r.bbd == s.bbd && r.visited == s.visited && |r.heaps| == |s.heaps|
  {
    hide Valid, KeyOf;
    ValidShape(s.g);
    var r := Rekeyed(s, d);
    assert r.bbd == s.bbd;
    forall i | 0 <= i < n ensures KeyCounted(r, s.g.succs[bb][i]) { assert KeyCounted(s, s.g.succs[bb][i]); }
    assert KeyCounted(r, s.g.succs[bb][n]);
  }

  /** The keys of the successors of the last block of a trace are recounted. */
  method RecountKeys(p: Layout, ghost g0: Graph, bb: nat, h: nat)
    requires Base(p.S(), g0) && bb < |p.g.info|
    modifies p`heaps, p`bbd
    ensures Base(p.S(), g0) && Queueing(old(p.S()), p.S(), h) && p.bbd == old(p.bbd)
    ensures Sized(old(p.S())) && p.S() == Recounted(old(p.S()), bb, |p.g.succs[bb]|)
    ensures |p.heaps| == |old(p.heaps)| && forall x :: 0 <= x < |p.heaps| ==> p.heaps[x].Keys == old(p.heaps)[x].Keys
  {
    hide Base, Queueing, IsKey, KeyOf, Enqueued;
    ghost var s := p.S();
    BaseIsValid(s, g0);
    QueueingNone(s, h);
    for i := 0 to |p.g.succs[bb]|
      invariant p.g == s.g && p.S() == Recounted(s, bb, i)
      invariant Base(p.S(), g0) && Queueing(s, p.S(), h) && p.bbd == s.bbd
      invariant |p.heaps| == |s.heaps| && forall x :: 0 <= x < |p.heaps| ==> p.heaps[x].Keys == s.heaps[x].Keys
    {
      var e := p.g.succs[bb][i];
      EdgeOf(p.g, bb, i);
      var d := p.g.edges[e].dest;
      if d == EXIT || p.visited[d] > 0 { continue; }
      var at := p.bbd[d].heap;
      if at != NONE {
        HeapOf(p.S(), g0, d);
        ghost var r := p.S();
        var key := BbToKey(p, d);
        if key != p.heaps[at][d] {
          EnqueuedBase(r, g0, d, at, key);
          EnqueuedQueueing(r, d, at, key, h);
          WithKeyKeys(p.heaps, at, d, key);
          p.heaps := WithKey(p.heaps, at, d, key);
          EnqueuedIs(r, p.S(), d, at, key);
          QueueingTwice(s, r, p.S(), h);
        } else {
          EnqueuedAgain(r, d, at, key);
        }
      }
    }
  }

  lemma BaseIsValid(s: State, g0: Graph)
    requires Base(s, g0)
    ensures Valid(s.g) && Sized(s)
  {}

  lemma WithKeyKeys(heaps: seq<map<nat, int>>, h: nat, d: nat, key: int)
    requires h < |heaps| && d in heaps[h]
    ensures |WithKey(heaps, h, d, key)| == |heaps|
    ensures forall x :: 0 <= x < |heaps| ==> WithKey(heaps, h, d, key)[x].Keys == heaps[x].Keys
  {}

  // ---- the end of a trace ----

  lemma EndsMore(s0: State, s: State, traces0: seq<Trace>, traces: seq<Trace>, t: nat, last: nat, h: nat)
    requires Ends(s0, traces0, t) && Grown(s0, s, t, h) && OthersSame(traces0, traces, t) && t < |s.chains|
    requires Owned(s) && StartsOf(traces, s.chains, t) && last == s.chains[t][|s.chains[t]| - 1]
    requires traces[t].first < |s.bbd| && last < |s.bbd| && |s.chains| == |traces|
    ensures var bbd := s.bbd[traces[t].first := s.bbd[traces[t].first].(startOfTrace := t)];
      Ends(s.(bbd := bbd[last := bbd[last].(endOfTrace := t)]), traces[t := traces[t].(last := last)], t + 1)
  {
    var first := traces[t].first;
    var bbd := s.bbd[first := s.bbd[first].(startOfTrace := t)];
    bbd := bbd[last := bbd[last].(endOfTrace := t)];
    var r := s.(bbd := bbd);
    var now := traces[t := traces[t].(last := last)];
    forall u | 0 <= u < t ensures EndOf(r, now, u) {
      assert EndOf(s0, traces0, u) && s.chains[u] == s0.chains[u] && traces[u] == traces0[u];
      Apart(s, t, u, 0);
      Apart(s, t, u, |s.chains[t]| - 1);
    }
    hide Owned, Waiting;
    assert EndOf(r, now, t);
  }

  /** The state in which trace number |traces| has been begun with bb, from heap h. */
  ghost predicate Begun(s: State, b: State, traces: seq<Trace>, bb: nat, h: nat) {
    && bb < |s.bbd| && s.bbd[bb].heap == h
    && b.chains == s.chains + [[]]
    && b == Dequeued(s, bb).(chains := b.chains, bbd := b.bbd)
    && b.bbd == Dequeued(s, bb).bbd[bb := Dequeued(s, bb).bbd[bb].(inTrace := |traces|)]
  }

  lemma BegunOpen(s: State, b: State, g0: Graph, traces: seq<Trace>, bb: nat, h: nat, more: seq<Trace>)
    requires Settled(s, g0, traces) && Begun(s, b, traces, bb, h) && |more| > |traces| && more[..|traces|] == traces
    ensures Open(b, g0, |traces|, bb) && Ends(b, more, |traces|)
    ensures |s.bbd| == |s.visited| && |b.bbd| == |b.visited| && Waiting(b, h) <= Waiting(s, h)
    ensures |b.heaps| == |s.heaps| && forall x :: 0 <= x < |s.heaps| && s.heaps[x] == map[] ==> b.heaps[x] == map[]
  {
    hide Open, Settled, Base, Queued, Begun, Marked, EndOf, Waiting;
    SettledBase(s, g0, traces);
    BegunWaiting(s, b, traces, bb, h);
    BegunData(s, b, traces, bb, h);
    ExtractedOpen(s, g0, traces, bb, Trace(bb, bb, 0, 0));
    OpenData(Dequeued(s, bb).(chains := b.chains), g0, |traces|, bb, b.bbd);
    SettledMarked(s, g0, traces);
    MarkedMore(s.bbd, b.bbd, traces, more);
    forall u | 0 <= u < |traces| ensures EndOf(b, more, u) {
      SettledEnd(s, g0, traces, u);
      EndOfMore(s, b, traces, more, u);
    }
  }

  lemma BegunData(s: State, b: State, traces: seq<Trace>, bb: nat, h: nat)
    requires Queued(s) && Begun(s, b, traces, bb, h)
    ensures bb < |s.bbd| && s.bbd[bb].heap != NONE && b.chains == s.chains + [[]]
    ensures |b.bbd| == |s.bbd| && SameEnds(s.bbd, b.bbd) && b == Dequeued(s, bb).(chains := b.chains, bbd := b.bbd)
    ensures |Dequeued(s, bb).bbd| == |b.bbd| && forall x :: 0 <= x < |b.bbd| ==> b.bbd[x].heap == Dequeued(s, bb).bbd[x].heap
  {
    DequeuedQueued(s, bb);
  }

  lemma BegunWaiting(s: State, b: State, traces: seq<Trace>, bb: nat, h: nat)
    requires Queued(s) && Begun(s, b, traces, bb, h)
    ensures |s.bbd| == |s.visited| && |b.bbd| == |b.visited| && Waiting(b, h) <= Waiting(s, h)
    ensures |b.heaps| == |s.heaps| && forall x :: 0 <= x < |s.heaps| && s.heaps[x] == map[] ==> b.heaps[x] == map[]
  {
    DequeuedQueued(s, bb);
  }

  lemma MarkedMore(bbd: seq<Data>, now: seq<Data>, traces: seq<Trace>, more: seq<Trace>)
    requires Marked(bbd, traces, |traces|) && SameEnds(bbd, now) && |more| > |traces| && more[..|traces|] == traces
    ensures Marked(now, more, |traces|)
  {
    assert forall u :: 0 <= u < |traces| ==> more[u] == more[..|traces|][u];
  }

  lemma EndOfMore(s: State, b: State, traces: seq<Trace>, more: seq<Trace>, u: nat)
    requires EndOf(s, traces, u) && SameEnds(s.bbd, b.bbd) && b.chains == s.chains + [[]]
    requires u < |traces| < |more| && more[..|traces|] == traces
    ensures EndOf(b, more, u)
  {
    assert more[u] == traces[u];
  }

  lemma SettledBase(s: State, g0: Graph, traces: seq<Trace>)
    requires Settled(s, g0, traces)
    ensures Base(s, g0) && Valid(s.g) && Sized(s) && Queued(s) && |s.bbd| == |s.visited| && |s.chains| == |traces|
  {}

  lemma SettledEnd(s: State, g0: Graph, traces: seq<Trace>, u: nat)
    requires Settled(s, g0, traces) && u < |traces|
    ensures EndOf(s, traces, u)
  {}

  lemma SettledMarked(s: State, g0: Graph, traces: seq<Trace>)
    requires Settled(s, g0, traces)
    ensures Marked(s.bbd, traces, |traces|)
  {}

  /** The state in which a complete trace has been recorded. */
  ghost predicate Recorded(s: State, f: State, first: nat, last: nat, t: nat) {
    && first < |s.bbd| && last < |s.bbd| && f == s.(bbd := f.bbd)
    && var bbd := s.bbd[first := s.bbd[first].(startOfTrace := t)];
      f.bbd == bbd[last := bbd[last].(endOfTrace := t)]
  }

  lemma RecordedSettled(s0: State, s: State, f: State, g0: Graph, traces0: seq<Trace>, traces: seq<Trace>, t: nat, last: nat, bb: nat, h: nat)
    requires Ends(s0, traces0, t) && Ended(s0, s, g0, t, last, bb, h) && OthersSame(traces0, traces, t)
    requires |traces| == t + 1 && StartsOf(traces, s.chains, t) && Recorded(s, f, traces[t].first, last, t)
    ensures Settled(f, g0, traces[t := traces[t].(last := last)])
    ensures |f.bbd| == |f.visited| && Waiting(f, h) == Waiting(s, h)
  {
    var now := traces[t := traces[t].(last := last)];
    CompleteSplit(s, g0, t, last);
    EndsMore(s0, s, traces0, traces, t, last, h);
    hide Complete, Ends, Grown, OthersSame, Owned, Coloured, Loose, Queued, SinceStart, Valid, Chained, Flows, Chain;
    SameChains(s, f, g0);
    RecordedHeaps(s, f, traces[t].first, last, t);
    forall d: nat | Covered(s, d) ensures Covered(f, d) {}
    hide Covered;
    ChainedAny(f, t, t + 1);
  }

  lemma CompleteSplit(s: State, g0: Graph, t: nat, last: nat)
    requires Complete(s, g0, t, last)
    ensures Base(s, g0) && Owned(s) && Queued(s) && |s.chains| == t + 1 && |g0.succs| <= |s.visited|
    ensures Chained(s, t, NONE) && ClosedBut(s, s.g, NONE) && ClosedBut(s, g0, NONE)
    ensures |s.chains[t]| > 0 && s.chains[t][|s.chains[t]| - 1] == last && |s.bbd| == |s.visited|
    ensures last < |s.bbd| && s.chains[t][0] < |s.bbd|
  {
    InChain(s, t, |s.chains[t]| - 1);
    InChain(s, t, 0);
  }

  lemma RecordedHeaps(s: State, f: State, first: nat, last: nat, t: nat)
    requires Recorded(s, f, first, last, t) && Queued(s)
    ensures Queued(f) && |f.bbd| == |s.bbd| && forall b :: 0 <= b < |f.bbd| ==> f.bbd[b].heap == s.bbd[b].heap
  {}

  lemma ChainedAny(s: State, t: nat, u: nat)
    requires Chained(s, t, NONE)
    ensures Chained(s, u, NONE)
  {
    hide Chain;
    forall v | 0 <= v < |s.chains| ensures Chain(s.aux, s.chains[v], NONE) {
      assert Chain(s.aux, s.chains[v], if v == t then NONE else NONE);
    }
  }

  /** How a trace came about: what was to be seen before it, the thresholds, the blocks that followed one another, and the
      heap its first block was taken from. */
  datatype Record = Record(view: View, th: Thresholds, grown: seq<nat>, heap: map<nat, int>)

  ghost function ViewOf(p: Layout): (v: View)
    reads p
    ensures Sees(p, v)
  {
    View(p.g, p.visited, seq(|p.bbd|, i requires 0 <= i < |p.bbd| reads p => p.bbd[i].startOfTrace), p.partitioning, p.optimizeSize,
         p.uncondJumpLength, p.maxGrowCopyInsns)
  }

  /** In v the blocks of the chains are visited, and no others; and the first blocks start the traces, and no others. */
  ghost predicate After(v: View, chains: seq<seq<nat>>) {
    && (forall u :: 0 <= u < |chains| ==>
          chains[u] != [] && Lists(v.visited, chains[u], u + 1) && chains[u][0] < |v.starts| && v.starts[chains[u][0]] == u)
    && (forall b :: 0 <= b < |v.visited| ==> v.visited[b] <= |chains|)
    && (forall b :: 0 <= b < |v.starts| && v.starts[b] >= 0 ==>
          v.starts[b] < |chains| && chains[v.starts[b]] != [] && chains[v.starts[b]][0] == b)
  }

  /** Collecting one trace from bb, which has left heap h; s is the state before that. */
  method CollectTrace(p: Layout, ghost g0: Graph, bb: nat, th: Thresholds, h: nat, ghost s: State) returns (ghost r: Record)
    requires Settled(s, g0, p.traces) && bb < |s.bbd| && s.bbd[bb].heap == h && p.S() == Dequeued(s, bb)
    requires h + 1 < |p.heaps| && |p.heaps| == |s.heaps| && UsedUp(s.heaps, h)
    modifies p
    ensures Settled(p.S(), g0, p.traces) && |p.heaps| == |s.heaps| && UsedUp(p.heaps, h) && LastKept(th, s.heaps, p.heaps, h)
    ensures |p.bbd| == |p.visited| && |s.bbd| == |s.visited| && Waiting(p.S(), h) <= Waiting(s, h) && bb !in Waiting(p.S(), h)
    ensures |p.traces| == |old(p.traces)| + 1 && p.traces[..|old(p.traces)|] == old(p.traces)
    ensures bb == AfterEntry(s.g) ==> p.traces[|old(p.traces)|].first == bb
    ensures |p.chains| == |s.chains| + 1 && p.chains[..|s.chains|] == s.chains
    ensures |p.traces| == |p.chains| && Formed(r.view, |p.chains|, th, r.grown, p.chains[|s.chains|], p.traces[|s.chains|].length)
    ensures r.grown != [] && r.grown[0] == bb && r.th == th
    ensures r.view.g == s.g && After(r.view, s.chains) && h < |s.heaps| && r.heap == s.heaps[h]
    ensures var last := p.traces[|s.chains|].last; last < |p.g.succs| && KeysCounted(p.S(), last, |p.g.succs[last]|)
  {
    hide Base, Open, Settled, Ended, StartsOf, Queueing, Waiting, Ends, Dequeued, Formed, After, Shows, KeysCounted, Recounted;
    ghost var traces0 := p.traces;
    SettledBase(s, g0, traces0);
    DequeuedSizes(s, bb);
    ghost var v := ViewOf(p);
    SettledView(s, g0, traces0, bb, v);
    var t := |p.traces|;
    p.traces := p.traces + [Trace(bb, bb, th.round, 0)];
    p.chains := p.chains + [[]];
    p.bbd := p.bbd[bb := p.bbd[bb].(inTrace := t)];
    ghost var b := p.S();
    ghost var traces1 := p.traces;
    BegunOpen(s, b, g0, traces0, bb, h, traces1);
    SettledShows(s, b, bb, t, v);
    var last, grown := GrowTrace(p, g0, bb, t, th, h, v);
    r := Record(v, th, grown, s.heaps[h]);
    EndedChains(b, p.S(), g0, t, last, bb, h);
    FinishTrace(p, g0, b, traces1, t, last, bb, h);
    ghost var f := p.S();
    SettledBase(f, g0, p.traces);
    LastInBounds(f, g0, p.traces, t);
    RecountKeys(p, g0, last, h);
    RecountedKeys(f, last, |f.g.succs[last]|);
    RecountSettled(f, p.S(), g0, p.traces, h);
  }

  lemma SettledView(s: State, g0: Graph, traces: seq<Trace>, bb: nat, v: View)
    requires Settled(s, g0, traces) && bb < |s.bbd|
    requires var q := Dequeued(s, bb); Shows(v, q.g, q.visited, q.bbd)
    ensures After(v, s.chains) && Shows(v, s.g, s.visited, s.bbd) && v.g == s.g
  {
    assert Shows(v, s.g, s.visited, s.bbd);
    hide Sized, Coloured, Loose, Queued, SinceStart, Chained, ClosedBut;
    forall u | 0 <= u < |s.chains|
      ensures s.chains[u] != [] && Lists(v.visited, s.chains[u], u + 1) && s.chains[u][0] < |v.starts| && v.starts[s.chains[u][0]] == u
    {
      assert EndOf(s, traces, u);
    }
    forall b | 0 <= b < |v.starts| && v.starts[b] >= 0
      ensures v.starts[b] < |s.chains| && s.chains[v.starts[b]] != [] && s.chains[v.starts[b]][0] == b
    {
      assert EndOf(s, traces, v.starts[b]);
    }
  }

  lemma SettledShows(s: State, b: State, bb: nat, t: nat, v: View)
    requires bb < |s.bbd| && Shows(v, s.g, s.visited, s.bbd)
    requires b == Dequeued(s, bb).(chains := b.chains, bbd := b.bbd)
    requires b.bbd == Dequeued(s, bb).bbd[bb := Dequeued(s, bb).bbd[bb].(inTrace := t)]
    ensures Shows(v, b.g, b.visited, b.bbd)
  {}

  lemma EndedChains(s0: State, s: State, g0: Graph, t: nat, bb: nat, bb0: nat, h: nat)
    requires Ended(s0, s, g0, t, bb, bb0, h) && |s0.chains| == t + 1
    ensures |s.chains| == t + 1 && s.chains[..t] == s0.chains[..t]
  {}

  lemma DequeuedSizes(s: State, bb: nat)
    requires bb < |s.bbd|
    ensures |Dequeued(s, bb).bbd| == |s.bbd| && Dequeued(s, bb).visited == s.visited && Dequeued(s, bb).chains == s.chains && Dequeued(s, bb).g == s.g
  {}

  lemma LastInBounds(s: State, g0: Graph, traces: seq<Trace>, t: nat)
    requires Settled(s, g0, traces) && t < |traces|
    ensures traces[t].last < |s.g.info|
  {
    SettledEnd(s, g0, traces, t);
  }

  /** Recording the ends of trace t. */
  method FinishTrace(p: Layout, ghost g0: Graph, ghost b: State, ghost traces1: seq<Trace>, t: nat, last: nat, ghost bb: nat, ghost h: nat)
    requires Ends(b, traces1, t) && Ended(b, p.S(), g0, t, last, bb, h) && OthersSame(traces1, p.traces, t)
    requires |p.traces| == t + 1 && StartsOf(p.traces, p.chains, t)
    modifies p`traces, p`bbd
    ensures |p.traces| == t + 1 && p.traces[t].last == last && Settled(p.S(), g0, p.traces)
    ensures p.traces[..t] == old(p.traces)[..t] && p.traces[t] == old(p.traces)[t].(last := last)
    ensures |p.bbd| == |p.visited| && Waiting(p.S(), h) <= Waiting(b, h) && bb !in Waiting(p.S(), h) && |b.bbd| == |b.visited|
    ensures |p.heaps| == |b.heaps| && (UsedUp(b.heaps, h) && h + 1 < |b.heaps| ==> UsedUp(p.heaps, h))
  {
    hide Ends, OthersSame, Settled, Complete;
    ghost var s := p.S();
    CompleteSplit(s, g0, t, last);
    p.traces := p.traces[t := p.traces[t].(last := last)];
    var first := p.traces[t].first;
    p.bbd := p.bbd[first := p.bbd[first].(startOfTrace := t)];
    p.bbd := p.bbd[last := p.bbd[last].(endOfTrace := t)];
    RecordedSettled(b, s, p.S(), g0, traces1, old(p.traces), t, last, bb, h);
  }

  lemma RecountSettled(f: State, r: State, g0: Graph, traces: seq<Trace>, h: nat)
    requires Settled(f, g0, traces) && Base(r, g0) && Queueing(f, r, h) && r.bbd == f.bbd && |r.heaps| == |f.heaps|
    requires forall x :: 0 <= x < |r.heaps| ==> r.heaps[x].Keys == f.heaps[x].Keys
    ensures Settled(r, g0, traces)
    ensures |f.bbd| == |f.visited| && Waiting(r, h) == Waiting(f, h)
    ensures forall x :: 0 <= x < |r.heaps| && f.heaps[x] == map[] ==> r.heaps[x] == map[]
  {
    SettledBase(f, g0, traces);
    SameEndsRefl(f.bbd);
    forall d: nat | Covered(f, d) ensures Covered(r, d) {}
    SettledSame(f, r, g0, traces);
    forall x | 0 <= x < |r.heaps| && f.heaps[x] == map[] ensures r.heaps[x] == map[] {
      assert r.heaps[x].Keys == {};
    }
  }

  lemma SameEndsRefl(bbd: seq<Data>)
    ensures SameEnds(bbd, bbd)
  {}

  /** The entry leads to no block but the one behind it. */
  ghost predicate OnlyBehind(g: Graph) {
    forall d: nat :: Flows(g, ENTRY, d) ==> d == AfterEntry(g)
  }

  /** If so, no trace starts before the one from that block. */
  ghost predicate EntryFirst(s: State, g0: Graph, traces: seq<Trace>) {
    OnlyBehind(g0) ==>
      if traces == [] then s.g == g0 && forall h, b :: 0 <= h < |s.heaps| && b in s.heaps[h] ==> b == AfterEntry(g0)
      else traces[0].first == AfterEntry(g0)
  }

  lemma EntryCollected(s: State, r: State, g0: Graph, was: seq<Trace>, now: seq<Trace>, h: nat, bb: nat)
    requires EntryFirst(s, g0, was) && h < |s.heaps| && bb in s.heaps[h]
    requires |now| == |was| + 1 && now[..|was|] == was && (bb == AfterEntry(s.g) ==> now[|was|].first == bb)
    ensures EntryFirst(r, g0, now)
  {
    if was != [] { assert now[0] == now[..|was|][0]; }
  }

  lemma EntryPutOff(s: State, g0: Graph, traces: seq<Trace>, h: nat, bb: nat, key: int)
    requires EntryFirst(s, g0, traces) && h + 1 < |s.heaps| && bb < |s.bbd| && bb in s.heaps[h] && s.bbd[bb].heap == h
    ensures EntryFirst(Enqueued(Dequeued(s, bb), bb, h + 1, key), g0, traces)
  {}

  lemma EntryHeapAdded(s: State, g0: Graph, traces: seq<Trace>)
    requires EntryFirst(s, g0, traces)
    ensures EntryFirst(s.(heaps := s.heaps + [map[]]), g0, traces)
  {}

  /** Trace u came about as recorded: from a block with the least key in its heap that was frequent enough for the round,
      when the traces before it were there. */
  ghost predicate Accounts(log: seq<Record>, chains: seq<seq<nat>>, traces: seq<Trace>, u: nat) {
    && u < |log| && u < |chains| && u < |traces|
    && var r := log[u];
      && Formed(r.view, u + 1, r.th, r.grown, chains[u], traces[u].length) && After(r.view, chains[..u])
      && Least(r.heap, r.grown[0]) && InSeason(r.view.g, r.grown[0], r.th)
  }

  ghost predicate Logged(log: seq<Record>, chains: seq<seq<nat>>, traces: seq<Trace>) {
    |log| == |chains| == |traces| && forall u :: 0 <= u < |log| ==> Accounts(log, chains, traces, u)
  }

  lemma LoggedMore(log: seq<Record>, chains: seq<seq<nat>>, traces: seq<Trace>, r: Record, now: seq<seq<nat>>, more: seq<Trace>)
    requires Logged(log, chains, traces) && |now| == |chains| + 1 == |more| && now[..|chains|] == chains && more[..|traces|] == traces
    requires Formed(r.view, |now|, r.th, r.grown, now[|chains|], more[|chains|].length) && After(r.view, chains)
    requires Least(r.heap, r.grown[0]) && InSeason(r.view.g, r.grown[0], r.th)
    ensures Logged(log + [r], now, more)
  {
    hide Formed, After, Least, InSeason;
    forall u | 0 <= u < |log| + 1 ensures Accounts(log + [r], now, more, u) {
      if u < |log| {
        assert Accounts(log, chains, traces, u);
        assert more[u] == more[..|traces|][u];
        assert now[u] == now[..|chains|][u] && now[..u] == chains[..u];
      }
    }
  }

  /** One block of the heap of this round, one with the least key: it is put off to the next round, or a trace is
      collected from it. */
  method RoundStep(p: Layout, ghost g0: Graph, th: Thresholds, h: nat, ghost log: seq<Record>)
    returns (ghost bb: nat, ghost more: seq<Record>)
    requires h + 1 < |p.heaps| && p.heaps[h] != map[] && UsedUp(p.heaps, h)
    requires Settled(p.S(), g0, p.traces) && EntryFirst(p.S(), g0, p.traces) && Logged(log, p.chains, p.traces)
    modifies p
    ensures Least(old(p.heaps)[h], bb) && bb < |old(p.g.info)| && bb < |old(p.bbd)| && h + 1 < |old(p.heaps)|
    ensures Logged(more, p.chains, p.traces)
    ensures if !InSeason(old(p.g), bb, th)
            then more == log && exists key :: p.S() == Enqueued(Dequeued(old(p.S()), bb), bb, h + 1, key) && IsKey(p.g, p.bbd, bb, key)
            else |more| == |log| + 1 && more[..|log|] == log && more[|log|].th == th && more[|log|].grown != [] && more[|log|].grown[0] == bb
                 && more[|log|].heap == old(p.heaps)[h] && more[|log|].view.g == old(p.g)
                 && |p.traces| == |p.chains| == |old(p.traces)| + 1
                 && var last := p.traces[|old(p.traces)|].last;
                    last < |p.g.succs| && KeysCounted(p.S(), last, |p.g.succs[last]|)
    ensures Settled(p.S(), g0, p.traces) && |p.heaps| == |old(p.heaps)| && UsedUp(p.heaps, h) && LastKept(th, old(p.heaps), p.heaps, h)
    ensures EntryFirst(p.S(), g0, p.traces)
    ensures |p.bbd| == |p.visited| && |old(p.bbd)| == |old(p.visited)| && Waiting(p.S(), h) < Waiting(old(p.S()), h)
  {
    hide Base, Settled, Waiting, Dequeued, Enqueued, Queued, Sized, EntryFirst, IsKey, Formed, After, Logged, KeysCounted;
    ghost var s := p.S();
    ghost var traces := p.traces;
    SettledBase(s, g0, p.traces);
    var first := ExtractMin(p, g0, h);
    bb := first;
    WasWaiting(s, bb, h);
    DequeuedIs(s, bb);
    var push := PushToNextRoundP(p.g, first, th);
    if push {
      PutOffSized(s, g0, p.traces, bb);
      var key := BbToKey(p, first);
      PutOff(s, g0, p.traces, bb, h, key);
      ghost var q := p.S();
      p.heaps := WithKey(p.heaps, h + 1, first, key);
      p.bbd := p.bbd[first := p.bbd[first].(heap := h + 1)];
      EnqueuedIs(q, p.S(), bb, h + 1, key);
      EntryPutOff(s, g0, traces, h, bb, key);
      IsKeySame(p.g, q.bbd, p.bbd, bb, key);
      more := log;
    } else {
      ghost var r := CollectTrace(p, g0, first, th, h, s);
      EntryCollected(s, p.S(), g0, traces, p.traces, h, bb);
      LoggedMore(log, s.chains, traces, r, p.chains, p.traces);
      more := log + [r];
    }
  }

  lemma DequeuedIs(s: State, bb: nat)
    requires bb < |s.bbd|
    ensures var q := Dequeued(s, bb);
      && q.g == s.g && q.visited == s.visited && q.aux == s.aux && |q.bbd| == |s.bbd| && |q.heaps| == |s.heaps|
      && forall x :: 0 <= x < |s.heaps| && s.heaps[x] == map[] ==> q.heaps[x] == map[]
  {}

  lemma WasWaiting(s: State, bb: nat, h: nat)
    requires Queued(s) && bb < |s.bbd| && s.bbd[bb].heap == h
    ensures bb in Waiting(s, h)
  {}

  lemma PutOffSized(s: State, g0: Graph, traces: seq<Trace>, bb: nat)
    requires Settled(s, g0, traces) && bb < |s.bbd|
    ensures Sized(Dequeued(s, bb)) && bb < |s.g.info|
  {}

  /** find_traces_1_round. Heap number h is the one with the starting blocks; the next one is made here. */
  method FindTraces1Round(p: Layout, ghost g0: Graph, th: Thresholds, h: nat, ghost log: seq<Record>) returns (ghost more: seq<Record>)
    requires |p.heaps| == h + 1 && UsedUp(p.heaps, h)
    requires Settled(p.S(), g0, p.traces) && EntryFirst(p.S(), g0, p.traces) && Logged(log, p.chains, p.traces)
    modifies p
    ensures Logged(more, p.chains, p.traces) && log <= more && forall u :: |log| <= u < |more| ==> more[u].th == th
    ensures |p.heaps| == h + 2 && UsedUp(p.heaps, h + 1) && Settled(p.S(), g0, p.traces) && EntryFirst(p.S(), g0, p.traces)
    ensures th.round + 1 >= th.rounds ==> p.heaps[h + 1] == map[]
  {
    hide Base, Settled, Waiting, EntryFirst, Logged;
    more := log;
    MoreHeaps(p.S(), g0, p.traces);
    EntryHeapAdded(p.S(), g0, p.traces);
    p.heaps := p.heaps + [map[]];
    while p.heaps[h] != map[]
      invariant |p.heaps| == h + 2 && UsedUp(p.heaps, h) && Settled(p.S(), g0, p.traces) && EntryFirst(p.S(), g0, p.traces)
      invariant th.round + 1 >= th.rounds ==> p.heaps[h + 1] == map[]
      invariant |p.bbd| == |p.visited|
      invariant Logged(more, p.chains, p.traces) && log <= more && forall u :: |log| <= u < |more| ==> more[u].th == th
      decreases Waiting(p.S(), h)
    {
      ghost var was, bb := more, 0;
      bb, more := RoundStep(p, g0, th, h, was);
      assert log <= was <= more;
    }
  }

  lemma MoreHeaps(s: State, g0: Graph, traces: seq<Trace>)
    requires Settled(s, g0, traces)
    ensures Settled(s.(heaps := s.heaps + [map[]]), g0, traces) && |s.bbd| == |s.visited|
  {
    var r := s.(heaps := s.heaps + [map[]]);
    SettledBase(s, g0, traces);
    SameChains(s, r, g0);
    assert Queued(r) by {
      forall h, b {:trigger b in r.heaps[h]} | 0 <= h < |r.heaps| && b in r.heaps[h] ensures b < |r.bbd| && r.bbd[b].heap == h {
        assert b in s.heaps[h];
      }
    }
    hide Owned, Coloured, SinceStart, Loose, Valid, Queued, Flows, Chained, Ends;
    SameEndsRefl(s.bbd);
    forall d: nat | Covered(s, d) ensures Covered(r, d) {}
    hide Covered;
    SettledSame(s, r, g0, traces);
  }

  // ---- all rounds ----

  /** The greatest frequency and the greatest count of the first n successors of the entry, or 0. */
  ghost predicate EntryMost(g: Graph, n: nat, frequency: int, count: int)
    requires Valid(g) && n <= |g.succs[ENTRY]|
  {
    && frequency >= 0 && count >= 0
    && (forall k :: 0 <= k < n ==> EntryPoint(g, k).frequency <= frequency && EntryPoint(g, k).count <= count)
    && (frequency > 0 ==> exists k :: 0 <= k < n && EntryPoint(g, k).frequency == frequency)
    && (count > 0 ==> exists k :: 0 <= k < n && EntryPoint(g, k).count == count)
  }

  ghost function EntryPoint(g: Graph, k: nat): BlockInfo
    requires Valid(g) && k < |g.succs[ENTRY]|
  {
    EdgeOf(g, ENTRY, k);
    g.info[g.edges[g.succs[ENTRY][k]].dest]
  }

  lemma EntryNone(g: Graph)
    requires Valid(g)
    ensures EntryMost(g, 0, 0, 0)
  {}

  lemma EntryMore(g: Graph, n: nat, frequency: int, count: int)
    requires Valid(g) && n < |g.succs[ENTRY]| && EntryMost(g, n, frequency, count)
    ensures var b := EntryPoint(g, n);
      EntryMost(g, n + 1, if b.frequency > frequency then b.frequency else frequency, if b.count > count then b.count else count)
  {
    hide Valid, EntryPoint;
  }

  /** The loop that inserts the entry points of the function into the first heap. */
  method InsertEntryPoints(p: Layout, ghost g0: Graph) returns (maxFrequency: int, maxCount: int)
    requires Base(p.S(), g0) && p.g == g0 && p.heaps == [map[]] && p.chains == [] && Marked(p.bbd, [], 0) && p.traces == []
    requires !Flows(g0, ENTRY, EXIT)
    modifies p`heaps, p`bbd
    ensures Settled(p.S(), g0, p.traces) && |p.heaps| == 1 && EntryFirst(p.S(), g0, p.traces)
    ensures EntryMost(p.g, |p.g.succs[ENTRY]|, maxFrequency, maxCount)
    ensures forall b: nat :: b in p.heaps[0] ==> b < |p.bbd| == |p.g.info| && IsKey(p.g, p.bbd, b, p.heaps[0][b])
  {
    hide Base, IsKey, KeyOf, Enqueued, Queueing, Flows, EntryMost;
    ghost var s := p.S();
    BaseIsValid(s, g0);
    EntryNone(p.g);
    maxFrequency, maxCount := 0, 0;
    NothingVisited(s, g0);
    for i := 0 to |p.g.succs[ENTRY]|
      invariant Base(p.S(), g0) && p.S() == s.(heaps := p.heaps, bbd := p.bbd) && |p.heaps| == 1 && SameEnds(s.bbd, p.bbd) && |p.bbd| == |s.bbd|
      invariant forall k :: 0 <= k < i ==> p.g.succs[ENTRY][k] < |p.g.edges| && Covered(p.S(), p.g.edges[p.g.succs[ENTRY][k]].dest)
      invariant forall b :: b in p.heaps[0] ==> Flows(g0, ENTRY, b)
      invariant EntryMost(p.g, i, maxFrequency, maxCount)
      invariant forall b: nat :: b in p.heaps[0] ==> b < |p.bbd| == |p.g.info| && IsKey(p.g, p.bbd, b, p.heaps[0][b])
    {
      var e := p.g.succs[ENTRY][i];
      EdgeOf(p.g, ENTRY, i);
      LeavesFlows(p.g, ENTRY, e);
      var d := p.g.edges[e].dest;
      HeapOf(p.S(), g0, d);
      ghost var r := p.S();
      var key := BbToKey(p, d);
      EnqueuedBase(r, g0, d, 0, key);
      p.heaps := WithKey(p.heaps, 0, d, key);
      p.bbd := p.bbd[d := p.bbd[d].(heap := 0)];
      EnqueuedIs(r, p.S(), d, 0, key);
      forall b: nat | b in p.heaps[0] ensures b < |p.bbd| == |p.g.info| && IsKey(p.g, p.bbd, b, p.heaps[0][b]) {
        IsKeySame(p.g, r.bbd, p.bbd, b, p.heaps[0][b]);
      }
      EntryMore(p.g, i, maxFrequency, maxCount);
      if p.g.info[d].frequency > maxFrequency { maxFrequency := p.g.info[d].frequency; }
      if p.g.info[d].count > maxCount { maxCount := p.g.info[d].count; }
    }
    EntrySettled(p.S(), g0);
  }

  lemma NothingVisited(s: State, g0: Graph)
    requires Base(s, g0) && s.chains == []
    ensures forall b :: 0 <= b < |s.visited| ==> s.visited[b] == 0
  {}

  lemma EntrySettled(s: State, g0: Graph)
    requires Base(s, g0) && s.g == g0 && s.chains == [] && Marked(s.bbd, [], 0)
    requires forall k :: 0 <= k < |g0.succs[ENTRY]| ==> g0.succs[ENTRY][k] < |g0.edges| && Covered(s, g0.edges[g0.succs[ENTRY][k]].dest)
    ensures Settled(s, g0, [])
  {
    NothingVisited(s, g0);
    forall d: nat | Flows(g0, ENTRY, d) ensures Covered(s, d) {
      var i :| 0 <= i < |g0.succs[ENTRY]| && FlowsBy(g0, ENTRY, i, d);
    }
    BaseIsValid(s, g0);
    hide Base, Flows, Covered, Valid;
  }

  /** The thresholds of a round. */
  function RoundThresholds(maxFrequency: int, maxCount: int, i: nat, rounds: nat): Thresholds
    requires i < N_ROUNDS
  {
    var count := if maxCount < INT_MAX / 1000 then Quot(maxCount * EXEC_THRESHOLD[i], 1000)
                 else Quot(maxCount, 1000) * EXEC_THRESHOLD[i];
    Thresholds(Quot(REG_BR_PROB_BASE * BRANCH_THRESHOLD[i], 1000), Quot(maxFrequency * EXEC_THRESHOLD[i], 1000), count, i, rounds)
  }

  /** The traces were found in the first n rounds, in order, with the thresholds of each round. */
  ghost predicate InRounds(log: seq<Record>, maxFrequency: int, maxCount: int, n: nat) {
    && (forall u :: 0 <= u < |log| ==>
          var i := log[u].th.round;
          i < n && i < N_ROUNDS && log[u].th == RoundThresholds(maxFrequency, maxCount, i, N_ROUNDS - 1))
    && (forall u, w :: 0 <= u < w < |log| ==> log[u].th.round <= log[w].th.round)
  }

  lemma NoneLogged()
    ensures Logged([], [], []) && forall f, c :: InRounds([], f, c, 0)
  {}

  lemma RoundsMore(log: seq<Record>, more: seq<Record>, maxFrequency: int, maxCount: int, i: nat)
    requires InRounds(log, maxFrequency, maxCount, i) && log <= more && i < N_ROUNDS
    requires forall u :: |log| <= u < |more| ==> more[u].th == RoundThresholds(maxFrequency, maxCount, i, N_ROUNDS - 1)
    ensures InRounds(more, maxFrequency, maxCount, i + 1)
  {
    hide Quot;
  }

  /** find_traces. At the end every block that is reachable from the entry, in the graph as it was and as it is now,
      is in exactly one trace, and no block is left in a heap. */
  method FindTraces(p: Layout, ghost g0: Graph) returns (maxEntryFrequency: int, maxEntryCount: int, ghost log: seq<Record>)
    requires Base(p.S(), g0) && p.g == g0 && p.heaps == [] && p.chains == [] && p.traces == []
    requires forall b :: 0 <= b < |p.bbd| ==> p.bbd[b] == UNKNOWN
    requires !Flows(g0, ENTRY, EXIT)
    modifies p
    ensures Settled(p.S(), g0, p.traces) && UsedUp(p.heaps, |p.heaps|)
    ensures forall b: nat :: Reachable(g0, b) || Reachable(p.g, b) ==> b == ENTRY || b == EXIT || InOneTrace(p.S(), b)
    ensures forall b: nat :: b < |p.bbd| ==> p.bbd[b].heap == NONE
    ensures Unfolds(g0, p.g)
    ensures OnlyBehind(g0) && p.traces != [] ==> p.traces[0].first == AfterEntry(g0)
    ensures Logged(log, p.chains, p.traces) && EntryMost(g0, |g0.succs[ENTRY]|, maxEntryFrequency, maxEntryCount)
    ensures InRounds(log, maxEntryFrequency, maxEntryCount, N_ROUNDS - 1)
  {
    hide Base, Settled, Reachable, InOneTrace, Marked, Flows, Unfolds, OnlyBehind, Logged, EntryMost, InRounds, Quot;
    var numberOfRounds := N_ROUNDS - 1;
    FirstHeap(p.S(), g0);
    NoneMarked(p.bbd);
    p.heaps := [map[]];
    maxEntryFrequency, maxEntryCount := InsertEntryPoints(p, g0);
    log := [];
    NoneLogged();
    for i := 0 to numberOfRounds
      invariant |p.heaps| == i + 1 && UsedUp(p.heaps, i) && Settled(p.S(), g0, p.traces) && EntryFirst(p.S(), g0, p.traces)
      invariant i == numberOfRounds ==> p.heaps[i] == map[]
      invariant Logged(log, p.chains, p.traces) && InRounds(log, maxEntryFrequency, maxEntryCount, i)
    {
      ghost var was := log;
      log := FindTraces1Round(p, g0, RoundThresholds(maxEntryFrequency, maxEntryCount, i, numberOfRounds), i, was);
      RoundsMore(was, log, maxEntryFrequency, maxEntryCount, i);
    }
    AllPlaced(p.S(), g0, p.traces);
    SettledUnfolds(p.S(), g0, p.traces);
  }

  lemma SettledUnfolds(s: State, g0: Graph, traces: seq<Trace>)
    requires Settled(s, g0, traces)
    ensures Unfolds(g0, s.g)
  {
    hide Unfolds, Owned, Queued, Coloured, Loose, Valid;
  }

  lemma NoneMarked(bbd: seq<Data>)
    requires forall b :: 0 <= b < |bbd| ==> bbd[b] == UNKNOWN
    ensures Marked(bbd, [], 0)
  {}

  lemma FirstHeap(s: State, g0: Graph)
    requires Base(s, g0) && s.heaps == []
    ensures Base(s.(heaps := [map[]]), g0)
  {
    SameChains(s, s.(heaps := [map[]]), g0);
    hide Owned, Coloured, SinceStart, Loose, Valid;
  }

  // ---- reachability ----

  ghost predicate Walk(g: Graph, path: seq<nat>) {
    forall i :: 0 <= i < |path| - 1 ==> Flows(g, path[i], path[i + 1])
  }

  ghost predicate WalkTo(g: Graph, path: seq<nat>, b: nat) {
    |path| > 0 && path[0] == ENTRY && path[|path| - 1] == b && Walk(g, path)
  }

  /** There is a path from the entry to b. */
  ghost predicate Reachable(g: Graph, b: nat) {
    exists path :: WalkTo(g, path, b)
  }

  /** b is in one chain, once. */
  ghost predicate InOneTrace(s: State, b: nat) {
    exists t :: 0 <= t < |s.chains| && b in s.chains[t] && Once(s.chains[t]) &&
      forall u :: 0 <= u < |s.chains| && b in s.chains[u] ==> u == t
  }

  lemma VisitedInOneTrace(s: State, b: nat)
    requires Owned(s) && b < |s.visited| && s.visited[b] > 0
    ensures InOneTrace(s, b)
  {
    hide Once;
    var t := s.visited[b] - 1;
    assert Lists(s.visited, s.chains[t], t + 1);
    forall u | 0 <= u < |s.chains| && b in s.chains[u] ensures u == t {
      assert Lists(s.visited, s.chains[u], u + 1);
    }
  }

  lemma {:induction false} WalkPassed(s: State, g: Graph, path: seq<nat>)
    requires ClosedBut(s, g, NONE) && g.succs != [] && (forall d: nat :: !Flows(g, EXIT, d))
    requires forall b: nat :: b < |s.bbd| ==> s.bbd[b].heap == NONE
    requires |path| > 0 && path[0] == ENTRY && Walk(g, path) && |s.visited| > 0
    ensures path[|path| - 1] == EXIT || Passed(s, path[|path| - 1])
    decreases |path|
  {
    hide Flows;
    if |path| > 1 {
      var n := |path| - 1;
      var front := path[..n];
      WalkPassed(s, g, front);
      assert Flows(g, path[n - 1], path[n - 1 + 1]);
    }
  }

  lemma AllPlaced(s: State, g0: Graph, traces: seq<Trace>)
    requires Settled(s, g0, traces) && UsedUp(s.heaps, |s.heaps|)
    ensures forall b: nat :: Reachable(g0, b) || Reachable(s.g, b) ==> b == ENTRY || b == EXIT || InOneTrace(s, b)
    ensures forall b: nat :: b < |s.bbd| ==> s.bbd[b].heap == NONE
  {
    SettledBase(s, g0, traces);
    NoHeap(s);
    NoExit(s.g);
    forall b: nat | Reachable(g0, b) || Reachable(s.g, b) ensures b == ENTRY || b == EXIT || InOneTrace(s, b) {
      hide Base, Walk, InOneTrace, ClosedBut;
      if Reachable(g0, b) {
        var path :| WalkTo(g0, path, b);
        WalkPassed(s, g0, path);
      } else {
        var path :| WalkTo(s.g, path, b);
        WalkPassed(s, s.g, path);
      }
      if b != ENTRY && b != EXIT { VisitedInOneTrace(s, b); }
    }
  }

  lemma NoHeap(s: State)
    requires Queued(s) && UsedUp(s.heaps, |s.heaps|)
    ensures forall b: nat :: b < |s.bbd| ==> s.bbd[b].heap == NONE
  {}

  lemma NoExit(g: Graph)
    requires Valid(g)
    ensures g.succs != [] && forall d: nat :: !Flows(g, EXIT, d)
  {}
}
