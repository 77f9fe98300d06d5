/** Hot/cold partitioning: making the edges between the partitions fit for two sections (bb-reorder.c). */
module EdgeFixup {
  import opened FlowGraphs
  import opened Layouts

  /** The jump at the end of a block. A branch is taken when the block's condition has the value `sense`. */
  datatype Jump = NoJump | Goto(target: nat) | Branch(sense: bool, target: nat)

  datatype FlowEdge = FlowEdge(src: nat, dest: nat, fallthru: bool, crossing: bool)

  datatype Code = Code(edges: seq<FlowEdge>, succs: seq<seq<nat>>, jump: seq<Jump>, part: seq<Partition>)

  // ---- blocks that fall through, jump, or branch two ways ----

  predicate InCode(c: Code, b: nat) {
    |c.succs| == |c.jump| == |c.part| && b < |c.jump|
  }

  /** The i-th edge out of b. */
  predicate EdgeIn(c: Code, b: nat, i: nat)
    requires InCode(c, b) && i < |c.succs[b]|
  {
    var e := c.succs[b][i];
    e < |c.edges| && c.edges[e].src == b && ENTRY != c.edges[e].dest < |c.jump|
  }

  /** The edges of b agree with its jump. */
  predicate Form(c: Code, b: nat)
    requires InCode(c, b)
  {
    && |c.succs[b]| <= 2 && (|c.succs[b]| > 0 ==> EdgeIn(c, b, 0)) && (|c.succs[b]| > 1 ==> EdgeIn(c, b, 1))
    && match c.jump[b]
       case NoJump => c.succs[b] == [] || (|c.succs[b]| == 1 && c.edges[c.succs[b][0]].fallthru)
       case Goto(t) => |c.succs[b]| == 1 && !c.edges[c.succs[b][0]].fallthru && c.edges[c.succs[b][0]].dest == t
       case Branch(s, t) =>
         && |c.succs[b]| == 2 && c.succs[b][0] != c.succs[b][1]
         && var x, y := c.edges[c.succs[b][0]], c.edges[c.succs[b][1]];
           x.fallthru != y.fallthru && x.dest != y.dest && (if x.fallthru then y else x).dest == t
  }

  /** An edge is marked as crossing iff it leads from one partition into the other. */
  predicate ExactEdge(c: Code, b: nat, e: FlowEdge)
    requires InCode(c, b)
  {
    e.dest < |c.part| && (e.crossing <==> b != ENTRY && e.dest != EXIT && c.part[b] != c.part[e.dest])
  }

  predicate Exact(c: Code, b: nat)
    requires InCode(c, b) && Form(c, b)
  {
    && (|c.succs[b]| > 0 ==> ExactEdge(c, b, c.edges[c.succs[b][0]]))
    && (|c.succs[b]| > 1 ==> ExactEdge(c, b, c.edges[c.succs[b][1]]))
  }

  /** Where b falls through to, or NONE. */
  function Fall(c: Code, b: nat): int
    requires InCode(c, b) && Form(c, b)
  {
    match c.jump[b]
    case NoJump => if c.succs[b] == [] then NONE else c.edges[c.succs[b][0]].dest
    case Goto(t) => NONE
    case Branch(s, t) => c.edges[c.succs[b][if c.edges[c.succs[b][0]].fallthru then 0 else 1]].dest
  }

  /** Where control goes after b when its condition has the value v. */
  function Step(c: Code, b: nat, v: bool): int
    requires InCode(c, b) && Form(c, b)
  {
    match c.jump[b]
    case NoJump => Fall(c, b)
    case Goto(t) => t
    case Branch(s, t) => if v == s then t else Fall(c, b)
  }

  /** Blocks from number n on are new: each only jumps to a block that is not. */
  predicate Forwarders(c: Code, n: nat) {
    && n <= |c.jump| == |c.succs| == |c.part|
    && forall b :: n <= b < |c.jump| ==> c.jump[b].Goto? && c.jump[b].target < n
  }

  /** Where a step leads once forwarders are followed. */
  function Through(c: Code, n: nat, d: int): int
    requires Forwarders(c, n)
  {
    if n <= d < |c.jump| then c.jump[d].target else d
  }

  ghost predicate WellFormed(c: Code) {
    && |c.jump| >= 2 && |c.succs| == |c.jump| == |c.part|
    && (forall b :: 0 <= b < |c.jump| ==> Form(c, b) && Exact(c, b))
  }

  /** New blocks are not entered from the other partition. */
  predicate EnteredInside(c: Code, n: nat) {
    forall e :: 0 <= e < |c.edges| && c.edges[e].dest >= n ==> !c.edges[e].crossing
  }

  /** c does what c0 did, but for passing through new blocks on the way. */
  ghost predicate Preserves(c0: Code, c: Code) {
    && EnteredInside(c, |c0.jump|)
    && WellFormed(c0) && WellFormed(c) && Forwarders(c, |c0.jump|) && |c0.jump| <= |c.jump|
    && (forall b, v :: 0 <= b < |c0.jump| ==> Through(c, |c0.jump|, Step(c, b, v)) == Step(c0, b, v))
  }

  lemma PreservesSelf(c: Code)
    requires WellFormed(c) && EnteredInside(c, |c.jump|)
    ensures Preserves(c, c)
  {
    forall b, v | 0 <= b < |c.jump| ensures Through(c, |c.jump|, Step(c, b, v)) == Step(c, b, v) {
      assert Form(c, b);
    }
  }

  /** b does not fall through into the other partition. */
  ghost predicate NoCrossingFall(c: Code, b: nat)
    requires InCode(c, b) && Form(c, b)
  {
    && (|c.succs[b]| > 0 ==> !(c.edges[c.succs[b][0]].fallthru && c.edges[c.succs[b][0]].crossing))
    && (|c.succs[b]| > 1 ==> !(c.edges[c.succs[b][1]].fallthru && c.edges[c.succs[b][1]].crossing))
  }

  /** b does not branch into the other partition, nor fall through into it after a branch that is not taken. */
  ghost predicate NoCrossingBranch(c: Code, b: nat)
    requires InCode(c, b) && Form(c, b)
  {
    c.jump[b].Branch? ==> !c.edges[c.succs[b][0]].crossing && !c.edges[c.succs[b][1]].crossing
  }

  // ---- the edits ----

  /** A block that falls through is made to jump. */
  function WithJump(c: Code, b: nat): Code
    requires InCode(c, b) && |c.succs[b]| > 0 && c.succs[b][0] < |c.edges|
  {
    var e := c.succs[b][0];
    c.(jump := c.jump[b := Goto(c.edges[e].dest)], edges := c.edges[e := c.edges[e].(fallthru := false)])
  }

  /** invert_jump, and what goes with it: f is the edge fallen through and g the one branched along. */
  function Inverted(c: Code, b: nat, f: nat, g: nat): Code
    requires InCode(c, b) && c.jump[b].Branch? && f < |c.edges| && g < |c.edges|
  {
    var edges := c.edges[f := c.edges[f].(fallthru := false, crossing := true)];
    c.(jump := c.jump[b := Branch(!c.jump[b].sense, c.edges[f].dest)],
       edges := edges[g := edges[g].(fallthru := true, crossing := false)])
  }

  /** force_nonfallthru on one edge of a two-way branch: a new block behind b jumps to where f led. */
  function Forced(c: Code, b: nat, f: nat): Code
    requires InCode(c, b) && f < |c.edges|
  {
    var n := |c.jump|;
    var m := |c.edges|;
    Code(c.edges[f := FlowEdge(n, c.edges[f].dest, false, true)] + [FlowEdge(b, n, true, false)],
         c.succs[b := Without(c.succs[b], f) + [m]] + [[f]],
         c.jump + [Goto(c.edges[f].dest)],
         c.part + [c.part[b]])
  }

  /** The branch along g is made to lead to a new block, which jumps to where g led. */
  function Retargeted(c: Code, b: nat, g: nat): Code
    requires InCode(c, b) && c.jump[b].Branch? && g < |c.edges|
  {
    var n := |c.jump|;
    var m := |c.edges|;
    var dest := c.edges[g].dest;
    Code(c.edges[g := c.edges[g].(dest := n, crossing := false)] + [FlowEdge(n, dest, false, true)],
         c.succs + [[m]],
         c.jump[b := Branch(c.jump[b].sense, n)] + [Goto(dest)],
         c.part + [c.part[b]])
  }

  /** Editing b leaves the other blocks alone. */
  lemma OtherBlock(c: Code, d: Code, b: nat, x: nat)
    requires InCode(c, x) && InCode(d, x) && x != b && Form(c, x) && Exact(c, x)
    requires d.succs[x] == c.succs[x] && d.jump[x] == c.jump[x] && d.part[x] == c.part[x] && |c.jump| <= |d.jump|
    requires forall y :: 0 <= y < |c.part| ==> d.part[y] == c.part[y]
    requires |c.edges| <= |d.edges| && forall e :: 0 <= e < |c.edges| && c.edges[e].src != b ==> d.edges[e] == c.edges[e]
    ensures Form(d, x) && Exact(d, x) && (forall v :: Step(d, x, v) == Step(c, x, v)) && Fall(d, x) == Fall(c, x)
    ensures NoCrossingFall(d, x) <==> NoCrossingFall(c, x)
    ensures NoCrossingBranch(d, x) <==> NoCrossingBranch(c, x)
  {}

  lemma JumpAdded(c: Code, b: nat)
    requires InCode(c, b) && Form(c, b) && Exact(c, b) && c.jump[b].NoJump? && c.succs[b] != []
    ensures var d := WithJump(c, b);
      Form(d, b) && Exact(d, b) && (forall v :: Step(d, b, v) == Step(c, b, v)) && NoCrossingFall(d, b) && NoCrossingBranch(d, b)
  {
    var d := WithJump(c, b);
    assert EdgeIn(c, b, 0);
    assert EdgeIn(d, b, 0);
  }

  lemma JumpInverted(c: Code, b: nat, f: nat, g: nat)
    requires InCode(c, b) && Form(c, b) && Exact(c, b) && c.jump[b].Branch?
    requires c.succs[b] == [f, g] || c.succs[b] == [g, f]
    requires f < |c.edges| && g < |c.edges| && c.edges[f].fallthru && c.edges[f].crossing && !c.edges[g].crossing
    ensures var d := Inverted(c, b, f, g);
      Form(d, b) && Exact(d, b) && (forall v :: Step(d, b, v) == Step(c, b, v)) && NoCrossingFall(d, b)
  {
    var d := Inverted(c, b, f, g);
    assert EdgeIn(c, b, 0) && EdgeIn(c, b, 1);
    assert EdgeIn(d, b, 0) && EdgeIn(d, b, 1);
  }

  lemma FallForced(c: Code, b: nat, f: nat, g: nat, n: nat)
    requires InCode(c, b) && Form(c, b) && Exact(c, b) && c.jump[b].Branch? && Forwarders(c, n) && b < n && b != ENTRY && b != EXIT
    requires c.succs[b] == [f, g] || c.succs[b] == [g, f]
    requires f < |c.edges| && g < |c.edges| && c.edges[f].fallthru && c.edges[f].crossing && c.edges[f].dest < n
    ensures var d := Forced(c, b, f);
      && Form(d, b) && Exact(d, b) && Form(d, |c.jump|) && Exact(d, |c.jump|) && Forwarders(d, n)
      && (forall v :: Through(d, n, Step(d, b, v)) == Through(c, n, Step(c, b, v)))
      && NoCrossingFall(d, b) && NoCrossingFall(d, |c.jump|)
  {
    var d := Forced(c, b, f);
    assert EdgeIn(c, b, 0) && EdgeIn(c, b, 1);
    assert Without(c.succs[b], f) == [g] by { WithoutOne(f, g); }
    assert d.succs[b] == [g, |c.edges|];
    assert EdgeIn(d, b, 0) && EdgeIn(d, b, 1) && EdgeIn(d, |c.jump|, 0);
  }

  lemma WithoutOne(f: nat, g: nat)
    requires f != g
    ensures Without([f, g], f) == [g] && Without([g, f], f) == [g]
  {
    assert [f, g][1..] == [g] && [g, f][1..] == [f];
    assert [g][1..] == [] && [f][1..] == [];
    assert Without([], f) == [];
    assert Without([g], f) == [g] && Without([f], f) == [];
  }

  lemma BranchRetargeted(c: Code, b: nat, f: nat, g: nat, n: nat)
    requires InCode(c, b) && Form(c, b) && Exact(c, b) && c.jump[b].Branch? && Forwarders(c, n) && b < n && b != ENTRY && b != EXIT
    requires c.succs[b] == [f, g] || c.succs[b] == [g, f]
    requires f < |c.edges| && g < |c.edges| && c.edges[f].fallthru && !c.edges[f].crossing && c.edges[g].crossing
    requires c.edges[g].dest < n && c.edges[f].dest < |c.jump|
    ensures var d := Retargeted(c, b, g);
      && Form(d, b) && Exact(d, b) && Form(d, |c.jump|) && Exact(d, |c.jump|) && Forwarders(d, n)
      && (forall v :: Through(d, n, Step(d, b, v)) == Through(c, n, Step(c, b, v)))
      && NoCrossingFall(d, b) && NoCrossingFall(d, |c.jump|) && NoCrossingBranch(d, b) && NoCrossingBranch(d, |c.jump|)
  {
    var d := Retargeted(c, b, g);
    assert EdgeIn(c, b, 0) && EdgeIn(c, b, 1);
    assert EdgeIn(d, b, 0) && EdgeIn(d, b, 1) && EdgeIn(d, |c.jump|, 0);
  }

  // ---- one edit in the whole ----

  /** d is c edited at block b, perhaps with one new block. */
  ghost predicate EditedAt(c: Code, d: Code, b: nat) {
    && |c.succs| == |c.jump| == |c.part| && |d.succs| == |d.jump| == |d.part| && b < |c.jump| <= |d.jump| <= |c.jump| + 1
    && (forall x :: 0 <= x < |c.jump| && x != b ==> d.succs[x] == c.succs[x] && d.jump[x] == c.jump[x])
    && (forall y :: 0 <= y < |c.part| ==> d.part[y] == c.part[y])
    && |c.edges| <= |d.edges| && (forall e :: 0 <= e < |c.edges| && c.edges[e].src != b ==> d.edges[e] == c.edges[e])
  }

  lemma EditedOther(c: Code, d: Code, b: nat, x: nat)
    requires EditedAt(c, d, b) && x < |c.jump| && x != b && Form(c, x) && Exact(c, x)
    ensures Form(d, x) && Exact(d, x) && (forall v :: Step(d, x, v) == Step(c, x, v)) && Fall(d, x) == Fall(c, x)
    ensures NoCrossingFall(d, x) <==> NoCrossingFall(c, x)
    ensures NoCrossingBranch(d, x) <==> NoCrossingBranch(c, x)
  {
    OtherBlock(c, d, b, x);
  }

  lemma EditPreserves(c0: Code, c: Code, d: Code, b: nat)
    requires Preserves(c0, c) && EditedAt(c, d, b) && b < |c0.jump|
    requires Form(d, b) && Exact(d, b) && Forwarders(d, |c0.jump|) && EnteredInside(d, |c0.jump|)
    requires |d.jump| > |c.jump| ==> Form(d, |c.jump|) && Exact(d, |c.jump|)
    requires Form(c, b) && forall v :: Through(d, |c0.jump|, Step(d, b, v)) == Through(c, |c0.jump|, Step(c, b, v))
    ensures Preserves(c0, d)
  {
    hide Form, Exact, Step, EditedAt;
    EditedSizes(c, d, b);
    forall x | 0 <= x < |d.jump| ensures Form(d, x) && Exact(d, x) {
      if x != b && x < |c.jump| { EditedOther(c, d, b, x); }
    }
    forall x, v | 0 <= x < |c0.jump| ensures Through(d, |c0.jump|, Step(d, x, v)) == Step(c0, x, v) {
      if x != b {
        EditedOther(c, d, b, x);
        EditedThrough(c, d, b, |c0.jump|, Step(c, x, v));
        StepBounded(c, x, v);
      }
    }
  }

  lemma EditedSizes(c: Code, d: Code, b: nat)
    requires EditedAt(c, d, b)
    ensures |d.succs| == |d.jump| == |d.part| && b < |c.jump| <= |d.jump| <= |c.jump| + 1
  {}

  /** A step leads to a block of the code. */
  lemma StepBounded(c: Code, b: nat, v: bool)
    requires InCode(c, b) && Form(c, b)
    ensures Step(c, b, v) < |c.jump|
  {}

  lemma EditedThrough(c: Code, d: Code, b: nat, n: nat, x: int)
    requires EditedAt(c, d, b) && b < n && Forwarders(c, n) && Forwarders(d, n)
    ensures x < |c.jump| ==> Through(d, n, x) == Through(c, n, x)
  {}

  // ---- runs ----

  /** The blocks control passes through from b on, leaving out those from number n on, for `steps` steps between the
      others; conds[k] is the value of the condition at the k-th of them. */
  ghost function Run(c: Code, n: nat, b: int, conds: seq<bool>): seq<int>
    requires WellFormed(c) && Forwarders(c, n) && -1 <= b < |c.jump|
    decreases |conds|, if n <= b then 1 else 0
  {
    if b < 0 then []
    else if b >= n then
      assert c.jump[b].target < n;
      Run(c, n, c.jump[b].target, conds)
    else if conds == [] then [b]
    else
      StepBounded(c, b, conds[0]);
      StepAtLeast(c, b, conds[0]);
      [b] + Run(c, n, Step(c, b, conds[0]), conds[1..])
  }

  lemma StepAtLeast(c: Code, b: nat, v: bool)
    requires InCode(c, b) && Form(c, b)
    ensures -1 <= Step(c, b, v)
  {}

  /** Every run passes through the same original blocks in the same order as before. */
  lemma {:induction false} SameRuns(c0: Code, c: Code, b: int, conds: seq<bool>)
    requires Preserves(c0, c) && -1 <= b < |c0.jump| && Forwarders(c0, |c0.jump|)
    ensures Run(c, |c0.jump|, b, conds) == Run(c0, |c0.jump|, b, conds)
    decreases |conds|
  {
    var n := |c0.jump|;
    if b >= 0 && conds != [] {
      hide Form, Exact, Step;
      var d := Step(c, b, conds[0]);
      StepBounded(c, b, conds[0]);
      StepAtLeast(c, b, conds[0]);
      StepBounded(c0, b, conds[0]);
      StepAtLeast(c0, b, conds[0]);
      assert Through(c, n, d) == Step(c0, b, conds[0]);
      SameRuns(c0, c, Through(c, n, d), conds[1..]);
    }
  }

  // ---- the procedures ----

  /** aux leads along the blocks in their order, which has all but the entry and the exit, each once. */
  ghost predicate Listed(c: Code, aux: seq<int>, order: seq<nat>) {
    && |aux| == |c.jump| && Chain(aux, order, NONE) && Once(order)
    && (forall b :: b in order ==> 1 < b < |c.jump|) && (forall b :: 1 < b < |c.jump| ==> b in order)
  }

  /** A new block n comes after position k. */
  lemma ListedMore(c: Code, d: Code, aux: seq<int>, order: seq<nat>, k: nat)
    requires Listed(c, aux, order) && k < |order| && |d.jump| == |c.jump| + 1
    ensures order[k] < |aux| && Listed(d, aux[order[k] := |aux|] + [aux[order[k]]], Inserted(order, k, |aux|))
  {
    assert order[k] in order;
    InsertedChain(aux, order, k, NONE);
    InsertedOnce(order, k, |aux|);
  }

  /** What the passes over the blocks keep. */
  ghost predicate Fixing(c0: Code, c: Code, aux: seq<int>, order: seq<nat>) {
    Preserves(c0, c) && Listed(c, aux, order)
  }

  lemma FixingIn(c0: Code, c: Code, aux: seq<int>, order: seq<nat>, k: nat)
    requires Fixing(c0, c, aux, order) && k < |order|
    ensures 1 < order[k] < |c.jump| == |c.succs| == |c.part| == |aux| && Form(c, order[k]) && Exact(c, order[k])
    ensures c.jump[order[k]].Goto? || order[k] < |c0.jump|
  {
    assert order[k] in order;
  }

  /** The first k blocks do not fall through into the other partition. */
  ghost predicate FallsFixed(c: Code, order: seq<nat>, k: nat) {
    k <= |order| && forall j :: 0 <= j < k ==> InCode(c, order[j]) && Form(c, order[j]) && NoCrossingFall(c, order[j])
  }

  /** The first k blocks do not branch into the other partition. */
  ghost predicate BranchesFixed(c: Code, order: seq<nat>, k: nat) {
    k <= |order| && forall j :: 0 <= j < k ==> InCode(c, order[j]) && Form(c, order[j]) && NoCrossingBranch(c, order[j])
  }

  lemma FallsEdited(c0: Code, c: Code, d: Code, aux: seq<int>, order: seq<nat>, k: nat)
    requires Fixing(c0, c, aux, order) && k < |order| && FallsFixed(c, order, k) && EditedAt(c, d, order[k]) && Preserves(c0, d)
    requires InCode(d, order[k]) && Form(d, order[k]) && NoCrossingFall(d, order[k])
    ensures FallsFixed(d, order, k + 1)
  {
    hide Form, Exact, Step, EditedAt, NoCrossingFall, Fixing, Preserves;
    EditedSizes(c, d, order[k]);
    forall j | 0 <= j < k ensures InCode(d, order[j]) && Form(d, order[j]) && NoCrossingFall(d, order[j]) {
      FixingIn(c0, c, aux, order, j);
      if order[j] != order[k] { EditedOther(c, d, order[k], order[j]); }
    }
  }

  lemma FallsInserted(d: Code, order: seq<nat>, k: nat, n: nat)
    requires k < |order| && FallsFixed(d, order, k + 1)
    ensures FallsFixed(d, Inserted(order, k, n), k + 1)
  {
    hide Form, NoCrossingFall;
    forall j | 0 <= j < k + 1 ensures Inserted(order, k, n)[j] == order[j] {}
  }

  /** The blocks that fall through into the other partition. */
  ghost function Falling(c: Code): set<nat>
    requires WellFormed(c)
  {
    set b: nat | b < |c.jump| && !NoCrossingFall(c, b)
  }

  lemma FallingEdited(c: Code, d: Code, b: nat)
    requires WellFormed(c) && WellFormed(d) && EditedAt(c, d, b) && !NoCrossingFall(c, b) && NoCrossingFall(d, b)
    requires |d.jump| > |c.jump| ==> NoCrossingFall(d, |c.jump|)
    ensures Falling(d) < Falling(c)
  {
    hide EditedAt, NoCrossingFall, Exact;
    EditedSizes(c, d, b);
    forall x | x in Falling(d) ensures x in Falling(c) && x != b {
      if x < |c.jump| && x != b { EditedOther(c, d, b, x); }
    }
    assert b in Falling(c);
  }

  /** The two edges out of a branching block, f fallen through and g branched along. */
  predicate TwoWay(c: Code, b: nat, f: nat, g: nat) {
    && InCode(c, b) && c.jump[b].Branch? && (c.succs[b] == [f, g] || c.succs[b] == [g, f])
    && f < |c.edges| && g < |c.edges| && c.edges[f].fallthru && !c.edges[g].fallthru && c.edges[f].dest < |c.jump|
    && c.edges[g].dest == c.jump[b].target
  }

  lemma TwoWayOf(c: Code, b: nat)
    requires InCode(c, b) && Form(c, b) && c.jump[b].Branch?
    ensures |c.succs[b]| == 2
    ensures TwoWay(c, b, c.succs[b][0], c.succs[b][1]) || TwoWay(c, b, c.succs[b][1], c.succs[b][0])
  {
    assert c.succs[b] == [c.succs[b][0], c.succs[b][1]];
  }

  lemma FixingParts(c0: Code, c: Code, aux: seq<int>, order: seq<nat>)
    requires Fixing(c0, c, aux, order)
    ensures Preserves(c0, c) && WellFormed(c) && Forwarders(c, |c0.jump|) && EnteredInside(c, |c0.jump|) && Listed(c, aux, order)
  {}

  lemma InvertedAt(c0: Code, c: Code, b: nat, f: nat, g: nat)
    requires Preserves(c0, c) && 1 < b < |c0.jump| && TwoWay(c, b, f, g) && c.edges[f].crossing && !c.edges[g].crossing
    ensures var d := Inverted(c, b, f, g);
      Preserves(c0, d) && EditedAt(c, d, b) && InCode(d, b) && Form(d, b) && NoCrossingFall(d, b) && |d.jump| == |c.jump| && Falling(d) < Falling(c)
  {
    var d := Inverted(c, b, f, g);
    assert Form(c, b);
    JumpInverted(c, b, f, g);
    assert EditedAt(c, d, b);
    assert !NoCrossingFall(c, b);
    hide Form, Exact, Step, Inverted, NoCrossingFall;
    InvertedInside(c, b, f, g, |c0.jump|);
    EditPreserves(c0, c, d, b);
    FallingEdited(c, d, b);
  }

  lemma InvertedInside(c: Code, b: nat, f: nat, g: nat, n: nat)
    requires EnteredInside(c, n) && Forwarders(c, n) && b < n && TwoWay(c, b, f, g) && c.edges[f].crossing && !c.edges[g].crossing
    ensures EnteredInside(Inverted(c, b, f, g), n) && Forwarders(Inverted(c, b, f, g), n)
    ensures forall x :: Through(Inverted(c, b, f, g), n, x) == Through(c, n, x)
  {}

  lemma ForcedAt(c0: Code, c: Code, b: nat, f: nat, g: nat)
    requires Preserves(c0, c) && 1 < b < |c0.jump| && TwoWay(c, b, f, g) && c.edges[f].crossing
    ensures var d := Forced(c, b, f);
      && Preserves(c0, d) && EditedAt(c, d, b) && InCode(d, b) && Form(d, b) && NoCrossingFall(d, b)
      && |d.jump| == |c.jump| + 1 && Falling(d) < Falling(c)
  {
    var d := Forced(c, b, f);
    assert Form(c, b);
    FallForced(c, b, f, g, |c0.jump|);
    assert EditedAt(c, d, b);
    assert !NoCrossingFall(c, b);
    hide Form, Exact, Step, NoCrossingFall;
    assert EnteredInside(d, |c0.jump|);
    hide Forced;
    EditPreserves(c0, c, d, b);
    FallingEdited(c, d, b);
  }

  lemma JumpAddedAt(c0: Code, c: Code, b: nat)
    requires Preserves(c0, c) && 1 < b < |c0.jump| && InCode(c, b) && c.jump[b].NoJump? && c.succs[b] != []
    ensures Form(c, b) && c.succs[b][0] < |c.edges|
    ensures var d := WithJump(c, b);
      && Preserves(c0, d) && EditedAt(c, d, b) && InCode(d, b) && Form(d, b) && NoCrossingFall(d, b) && |d.jump| == |c.jump|
      && (!NoCrossingFall(c, b) ==> Falling(d) < Falling(c))
  {
    assert Form(c, b) && EdgeIn(c, b, 0);
    var d := WithJump(c, b);
    JumpAdded(c, b);
    assert EditedAt(c, d, b);
    hide Form, Exact, Step, NoCrossingFall;
    assert EnteredInside(d, |c0.jump|) && Forwarders(d, |c0.jump|);
    hide WithJump;
    EditPreserves(c0, c, d, b);
    if !NoCrossingFall(c, b) { FallingEdited(c, d, b); }
  }

  /** The blocks that branch into the other partition. */
  ghost function Branching(c: Code): set<nat>
    requires WellFormed(c)
  {
    set b: nat | b < |c.jump| && !NoCrossingBranch(c, b)
  }

  lemma BranchingEdited(c: Code, d: Code, b: nat)
    requires WellFormed(c) && WellFormed(d) && EditedAt(c, d, b) && !NoCrossingBranch(c, b) && NoCrossingBranch(d, b)
    requires |d.jump| > |c.jump| ==> NoCrossingBranch(d, |c.jump|)
    ensures Branching(d) < Branching(c)
  {
    hide EditedAt, NoCrossingBranch, Exact;
    EditedSizes(c, d, b);
    forall x | x in Branching(d) ensures x in Branching(c) && x != b {
      if x < |c.jump| && x != b { EditedOther(c, d, b, x); }
    }
    assert b in Branching(c);
  }

  lemma RetargetedAt(c0: Code, c: Code, b: nat, f: nat, g: nat)
    requires Preserves(c0, c) && 1 < b < |c0.jump| && TwoWay(c, b, f, g) && !c.edges[f].crossing && c.edges[g].crossing
    ensures var d := Retargeted(c, b, g);
      && Preserves(c0, d) && EditedAt(c, d, b) && |d.jump| == |c.jump| + 1 && Branching(d) < Branching(c)
      && InCode(d, b) && Form(d, b) && NoCrossingFall(d, b) && NoCrossingBranch(d, b)
      && InCode(d, |c.jump|) && Form(d, |c.jump|) && NoCrossingFall(d, |c.jump|) && NoCrossingBranch(d, |c.jump|)
  {
    var d := Retargeted(c, b, g);
    assert Form(c, b);
    BranchRetargeted(c, b, f, g, |c0.jump|);
    assert EditedAt(c, d, b);
    assert !NoCrossingBranch(c, b);
    hide Form, Exact, Step, NoCrossingFall, NoCrossingBranch;
    assert EnteredInside(d, |c0.jump|);
    hide Retargeted;
    EditPreserves(c0, c, d, b);
    BranchingEdited(c, d, b);
  }

  lemma OnlyBranchCrosses(c: Code, order: seq<nat>, k: nat, f: nat, g: nat)
    requires FallsFixed(c, order, |order|) && k < |order| && InCode(c, order[k])
    requires |c.succs[order[k]]| == 2 && c.succs[order[k]][0] != c.succs[order[k]][1]
    requires {f, g} == {c.succs[order[k]][0], c.succs[order[k]][1]}
    requires g < |c.edges| && c.edges[g].crossing && (TwoWay(c, order[k], f, g) || TwoWay(c, order[k], g, f))
    ensures TwoWay(c, order[k], f, g) && !c.edges[f].crossing
  {}

  lemma AllEdited(c0: Code, c: Code, d: Code, aux: seq<int>, order: seq<nat>, k: nat, n: nat)
    requires Fixing(c0, c, aux, order) && k < |order| && EditedAt(c, d, order[k]) && Preserves(c0, d) && n == |c.jump|
    requires FallsFixed(c, order, |order|) && BranchesFixed(c, order, k) && |d.jump| == n + 1
    requires InCode(d, order[k]) && Form(d, order[k]) && NoCrossingFall(d, order[k]) && NoCrossingBranch(d, order[k])
    requires InCode(d, n) && Form(d, n) && NoCrossingFall(d, n)
    ensures FallsFixed(d, order + [n], |order| + 1) && BranchesFixed(d, order + [n], k + 1)
  {
    hide Form, Exact, Step, EditedAt, NoCrossingFall, NoCrossingBranch, Fixing, Preserves;
    EditedSizes(c, d, order[k]);
    forall j | 0 <= j < |order|
      ensures InCode(d, order[j]) && Form(d, order[j]) && NoCrossingFall(d, order[j]) && (j <= k ==> NoCrossingBranch(d, order[j]))
    {
      FixingIn(c0, c, aux, order, j);
      if order[j] != order[k] { EditedOther(c, d, order[k], order[j]); }
    }
    var more := order + [n];
    assert forall j :: 0 <= j < |more| ==> more[j] == if j < |order| then order[j] else n;
  }

  lemma InsertedAtEnd(order: seq<nat>, n: nat)
    requires |order| > 0
    ensures Inserted(order, |order| - 1, n) == order + [n] && |order + [n]| == |order| + 1
  {}

  lemma NotBranching(c: Code, b: nat, e: int)
    requires InCode(c, b) && Form(c, b)
    requires e == if |c.succs[b]| > 0 && c.edges[c.succs[b][0]].crossing then c.succs[b][0]
                  else if |c.succs[b]| > 1 && c.edges[c.succs[b][1]].crossing then c.succs[b][1] else NONE
    requires e == NONE || !c.jump[b].Branch?
    ensures NoCrossingBranch(c, b)
  {}

  lemma BranchesSame(c: Code, order: seq<nat>, k: nat)
    requires BranchesFixed(c, order, k) && k < |order| && InCode(c, order[k]) && Form(c, order[k]) && NoCrossingBranch(c, order[k])
    ensures BranchesFixed(c, order, k + 1)
  {}

  lemma FixingWell(c0: Code, c: Code, aux: seq<int>, order: seq<nat>)
    requires Fixing(c0, c, aux, order)
    ensures WellFormed(c) && |aux| == |c.jump|
  {}

  lemma FixingPlaced(c0: Code, c: Code, d: Code, aux: seq<int>, order: seq<nat>)
    requires WellFormed(c) && Fixing(c0, d, aux, order) && JumpsAdded(c, d)
    ensures FallsPlaced(c, aux, d, aux)
  {
    PlacedJumps(c, d, aux);
  }

  lemma NothingFixed(c: Code, order: seq<nat>)
    ensures FallsFixed(c, order, 0) && BranchesFixed(c, order, 0)
  {}

  // ---- falling through and the order of the blocks ----

  /** Block b falls through to the next block, or not at all, or it does what it did before, with the same next block or
      after having been the last one. */
  ghost predicate PlacedAt(c0: Code, aux0: seq<int>, c: Code, aux: seq<int>, b: nat)
    requires InCode(c0, b) && Form(c0, b) && InCode(c, b) && Form(c, b) && b < |aux0| && b < |aux|
  {
    Fall(c, b) == NONE || Fall(c, b) == aux[b] || (Fall(c, b) == Fall(c0, b) && (aux[b] == aux0[b] || aux0[b] == NONE))
  }

  /** So do all blocks of c0, in c. */
  ghost predicate FallsPlaced(c0: Code, aux0: seq<int>, c: Code, aux: seq<int>) {
    && WellFormed(c0) && WellFormed(c) && |aux0| == |c0.jump| <= |c.jump| == |aux|
    && forall b :: 0 <= b < |c0.jump| ==> PlacedAt(c0, aux0, c, aux, b)
  }

  /** Every block falls through to the next one, or to the exit, or not at all. */
  ghost predicate FallsInOrder(c: Code, aux: seq<int>) {
    WellFormed(c) && |aux| == |c.jump| && forall b :: 1 < b < |c.jump| ==> Fall(c, b) == NONE || Fall(c, b) == EXIT || Fall(c, b) == aux[b]
  }

  /** If blocks fell through in order they still do, new ones included. */
  lemma OrderKept(c0: Code, aux0: seq<int>, c: Code, aux: seq<int>)
    requires FallsPlaced(c0, aux0, c, aux) && FallsInOrder(c0, aux0) && Forwarders(c, |c0.jump|)
    ensures FallsInOrder(c, aux)
  {
    forall b | 1 < b < |c.jump| ensures Fall(c, b) == NONE || Fall(c, b) == EXIT || Fall(c, b) == aux[b] {
      if b < |c0.jump| { assert PlacedAt(c0, aux0, c, aux, b); }
    }
    hide Form, Exact, Fall;
  }

  lemma PlacedSelf(c: Code, aux: seq<int>)
    requires WellFormed(c) && |aux| == |c.jump|
    ensures FallsPlaced(c, aux, c, aux)
  {
    hide Exact, Fall;
  }

  lemma PlacedTwice(c0: Code, aux0: seq<int>, c: Code, aux: seq<int>, d: Code, aux1: seq<int>)
    requires FallsPlaced(c0, aux0, c, aux) && FallsPlaced(c, aux, d, aux1)
    ensures FallsPlaced(c0, aux0, d, aux1)
  {
    hide Form, Exact, Fall;
    forall b | 0 <= b < |c0.jump| ensures PlacedAt(c0, aux0, d, aux1, b) {
      assert PlacedAt(c0, aux0, c, aux, b) && PlacedAt(c, aux, d, aux1, b);
    }
  }

  /** One edit, at block b. */
  lemma PlacedEdited(c: Code, aux: seq<int>, d: Code, aux1: seq<int>, b: nat)
    requires WellFormed(c) && WellFormed(d) && EditedAt(c, d, b) && |aux| == |c.jump| && |aux1| == |d.jump|
    requires forall x :: 0 <= x < |aux| && x != b ==> aux1[x] == aux[x] || aux[x] == NONE
    requires InCode(c, b) && Form(c, b) && InCode(d, b) && Form(d, b) && PlacedAt(c, aux, d, aux1, b)
    ensures FallsPlaced(c, aux, d, aux1)
  {
    hide Form, Exact, Fall, EditedAt;
    EditedSizes(c, d, b);
    forall x | 0 <= x < |c.jump| ensures PlacedAt(c, aux, d, aux1, x) {
      if x != b { EditedOther(c, d, b, x); }
    }
  }

  lemma PlacedJumps(c: Code, d: Code, aux: seq<int>)
    requires WellFormed(c) && WellFormed(d) && JumpsAdded(c, d) && |aux| == |c.jump|
    ensures FallsPlaced(c, aux, d, aux)
  {
    forall b | 0 <= b < |c.jump| ensures PlacedAt(c, aux, d, aux, b) {
      assert Form(c, b) && Form(d, b);
      if |c.succs[b]| > 0 { assert EdgeIn(c, b, 0) && EdgeIn(d, b, 0); }
      if |c.succs[b]| > 1 { assert EdgeIn(c, b, 1) && EdgeIn(d, b, 1); }
    }
  }

  /** The branch of b leads to the next block, on the same side, while b falls through to the other side. */
  predicate Invertible(c: Code, aux: seq<int>, b: nat) {
    InCode(c, b) && |c.succs[b]| == 2 && b < |aux|
    && var e, f := c.succs[b][0], c.succs[b][1];
      e < |c.edges| && f < |c.edges|
      && var x, y := if c.edges[e].fallthru then c.edges[e] else c.edges[f], if c.edges[e].fallthru then c.edges[f] else c.edges[e];
        x.fallthru && x.crossing && x.dest != EXIT && !y.crossing && y.dest == aux[b]
  }

  /** Where things stand after b has been looked at: a branch that leads to the next block has been inverted if possible;
      for another block that falls through to the other side after a branch there is a new block to fall into. */
  ghost predicate FallMended(c: Code, aux: seq<int>, order: seq<nat>, canInvert: bool, k: nat, d: Code, order1: seq<nat>)
    requires k < |order|
  {
    var b := order[k];
    InCode(c, b) && Form(c, b) && InCode(d, b) && Form(d, b)
    && (NoCrossingFall(c, b) ==> d == c && order1 == order)
    && (!NoCrossingFall(c, b) && c.jump[b].NoJump? ==> order1 == order && d.jump[b] == Goto(Fall(c, b)))
    && (!NoCrossingFall(c, b) && c.jump[b].Branch? ==>
          if Invertible(c, aux, b) && canInvert
          then order1 == order && |d.jump| == |c.jump| && d.jump[b] == Branch(!c.jump[b].sense, Fall(c, b)) && Fall(d, b) == c.jump[b].target
          else order1 == Inserted(order, k, |c.jump|) && |d.jump| == |c.jump| + 1 && d.jump[b] == c.jump[b]
               && Fall(d, b) == |c.jump| && d.jump[|c.jump|] == Goto(Fall(c, b)) && d.part[|c.jump|] == c.part[b])
  }

  lemma InvertedMended(c: Code, aux: seq<int>, order: seq<nat>, k: nat, f: nat, g: nat)
    requires k < |order| && TwoWay(c, order[k], f, g) && Form(c, order[k]) && c.edges[f].crossing && !c.edges[g].crossing
    requires c.edges[f].dest != EXIT && |aux| == |c.jump| && aux[order[k]] == c.edges[g].dest
    requires var d := Inverted(c, order[k], f, g); InCode(d, order[k]) && Form(d, order[k])
    ensures var d := Inverted(c, order[k], f, g);
      FallMended(c, aux, order, true, k, d, order) && PlacedAt(c, aux, d, aux, order[k])
  {}

  lemma ForcedMended(c: Code, aux: seq<int>, order: seq<nat>, canInvert: bool, k: nat, f: nat, g: nat)
    requires k < |order| && TwoWay(c, order[k], f, g) && Form(c, order[k]) && c.edges[f].crossing && c.edges[f].dest != EXIT
    requires |aux| == |c.jump| && order[k] < |c.jump|
    requires !canInvert || c.edges[g].crossing || aux[order[k]] != c.edges[g].dest
    requires var d := Forced(c, order[k], f); InCode(d, order[k]) && Form(d, order[k])
    ensures var d, n, aux1 := Forced(c, order[k], f), |c.jump|, aux[order[k] := |c.jump|] + [aux[order[k]]];
      FallMended(c, aux, order, canInvert, k, d, Inserted(order, k, n)) && PlacedAt(c, aux, d, aux1, order[k])
  {
    var d := Forced(c, order[k], f);
    WithoutOne(f, g);
    assert d.succs[order[k]] == [g, |c.edges|];
  }

  lemma JumpMended(c: Code, aux: seq<int>, order: seq<nat>, canInvert: bool, k: nat, f: nat)
    requires k < |order| && InCode(c, order[k]) && Form(c, order[k]) && c.jump[order[k]].NoJump? && c.succs[order[k]] == [f]
    requires f < |c.edges| && c.edges[f].crossing && |aux| == |c.jump|
    requires var d := WithJump(c, order[k]); InCode(d, order[k]) && Form(d, order[k])
    ensures var d := WithJump(c, order[k]);
      FallMended(c, aux, order, canInvert, k, d, order) && PlacedAt(c, aux, d, aux, order[k])
  {}

  lemma NothingMended(c: Code, aux: seq<int>, order: seq<nat>, canInvert: bool, k: nat)
    requires k < |order| && InCode(c, order[k]) && Form(c, order[k]) && NoCrossingFall(c, order[k])
    ensures FallMended(c, aux, order, canInvert, k, c, order)
  {}

  lemma FormEdges(c: Code, b: nat)
    requires InCode(c, b) && Form(c, b)
    ensures |c.succs[b]| <= 2 && (|c.succs[b]| > 0 ==> c.succs[b][0] < |c.edges|) && (|c.succs[b]| > 1 ==> c.succs[b][1] < |c.edges|)
    ensures |c.succs[b]| == 2 <==> c.jump[b].Branch?
    ensures |c.succs[b]| == 1 && c.edges[c.succs[b][0]].fallthru ==> c.jump[b].NoJump?
  {
    if |c.succs[b]| > 0 { assert EdgeIn(c, b, 0); }
    if |c.succs[b]| > 1 { assert EdgeIn(c, b, 1); }
  }

  /** The branch at position k has been looked at: if it leads to the other side it leads to a new block at the end now. */
  ghost predicate BranchMended(c: Code, order: seq<nat>, k: nat, d: Code, order1: seq<nat>)
    requires k < |order|
  {
    var b, n := order[k], |c.jump|;
    InCode(c, b) && Form(c, b) && InCode(d, b) && Form(d, b)
    && if NoCrossingBranch(c, b) then d == c && order1 == order
       else c.jump[b].Branch? && order1 == order + [n] && |d.jump| == n + 1 && |d.part| == n + 1
            && d.jump[b] == Branch(c.jump[b].sense, n) && d.jump[n] == Goto(c.jump[b].target) && d.part[n] == c.part[b]
            && Fall(d, b) == Fall(c, b)
  }

  lemma RetargetMended(c: Code, aux: seq<int>, order: seq<nat>, k: nat, f: nat, g: nat)
    requires k < |order| && TwoWay(c, order[k], f, g) && Form(c, order[k]) && c.edges[g].crossing && !c.edges[f].crossing
    requires |aux| == |c.jump| && order[|order| - 1] < |aux| && aux[order[|order| - 1]] == NONE && order[k] < |aux|
    requires var d := Retargeted(c, order[k], g); InCode(d, order[k]) && Form(d, order[k])
    ensures var d, n, last := Retargeted(c, order[k], g), |c.jump|, order[|order| - 1];
      BranchMended(c, order, k, d, order + [n]) && PlacedAt(c, aux, d, aux[last := n] + [aux[last]], order[k])
  {}

  lemma NotMended(c: Code, order: seq<nat>, k: nat)
    requires k < |order| && InCode(c, order[k]) && Form(c, order[k]) && NoCrossingBranch(c, order[k])
    ensures BranchMended(c, order, k, c, order)
  {}

  lemma LastBlock(c: Code, aux: seq<int>, order: seq<nat>)
    requires Listed(c, aux, order) && order != []
    ensures order[|order| - 1] < |aux| && aux[order[|order| - 1]] == NONE
  {}

  // ---- marking the partitions ----

  /** The same blocks and edges; only partitions and crossing marks may differ. */
  ghost predicate SameFlow(c: Code, d: Code) {
    && d.succs == c.succs && d.jump == c.jump && |d.part| == |c.part| && |d.edges| == |c.edges|
    && (forall e :: 0 <= e < |c.edges| ==>
          d.edges[e].src == c.edges[e].src && d.edges[e].dest == c.edges[e].dest && d.edges[e].fallthru == c.edges[e].fallthru)
  }

  lemma SameFlowForm(c: Code, d: Code, b: nat)
    requires SameFlow(c, d) && InCode(c, b) && Form(c, b)
    ensures InCode(d, b) && Form(d, b) && forall v :: Step(d, b, v) == Step(c, b, v)
  {}

  /** Before the partitions are known. */
  ghost predicate Shaped(c: Code) {
    && |c.jump| >= 2 && |c.succs| == |c.jump| == |c.part| && c.succs[EXIT] == []
    && (forall b :: 0 <= b < |c.jump| ==> Form(c, b))
    && (forall e :: 0 <= e < |c.edges| ==> e in Out(c, c.edges[e].src) && c.edges[e].dest < |c.jump|)
    && (forall e :: 0 <= e < |c.edges| && c.edges[e].src == ENTRY ==> !c.edges[e].crossing)
  }

  function Out(c: Code, b: nat): seq<nat> { if b < |c.succs| then c.succs[b] else [] }

  /** Whether an edge is to be marked. */
  predicate Crosses(c: Code, e: nat)
    requires e < |c.edges|
  {
    var x := c.edges[e];
    x.src != ENTRY && x.dest != EXIT && x.src < |c.part| && x.dest < |c.part| && c.part[x.src] != c.part[x.dest]
  }

  lemma MarkedWell(c: Code)
    requires Shaped(c) && forall e :: 0 <= e < |c.edges| ==> (c.edges[e].crossing <==> Crosses(c, e))
    ensures WellFormed(c)
  {
    forall b | 0 <= b < |c.jump| ensures Form(c, b) && Exact(c, b) {
      assert Form(c, b);
      if |c.succs[b]| > 0 { assert EdgeIn(c, b, 0); }
      if |c.succs[b]| > 1 { assert EdgeIn(c, b, 1); }
    }
  }

  lemma SameFlowShaped(c: Code, d: Code)
    requires Shaped(c) && SameFlow(c, d) && forall e :: 0 <= e < |c.edges| && c.edges[e].src == ENTRY ==> !d.edges[e].crossing
    ensures Shaped(d)
  {
    forall b | 0 <= b < |d.jump| ensures Form(d, b) { SameFlowForm(c, d, b); }
    forall e | 0 <= e < |d.edges| ensures e in Out(d, d.edges[e].src) {
      assert e in Out(c, c.edges[e].src);
    }
  }

  function MarkedEdge(c: Code, e: nat): Code
    requires e < |c.edges|
  {
    c.(edges := c.edges[e := c.edges[e].(crossing := Crosses(c, e))])
  }

  /** The edges in `done` have been marked, and those that cross are listed. */
  ghost predicate MarkedFor(c: Code, done: set<nat>, list: seq<nat>) {
    && (forall e :: e in done ==>
          e < |c.edges| && c.edges[e].src != ENTRY && (c.edges[e].crossing <==> Crosses(c, e)) && (c.edges[e].crossing ==> e in list))
    && (forall e :: e in list ==> e in done && e < |c.edges| && c.edges[e].crossing)
  }

  lemma ShapedSizes(c: Code)
    requires Shaped(c)
    ensures |c.jump| >= 2 && |c.succs| == |c.jump| == |c.part|
  {}

  lemma SameSizes(c: Code, m: Code, d: Code)
    requires SameFlow(c, m) && SameFlow(m, d)
    ensures SameFlow(c, d) && |d.jump| == |c.jump|
  {}

  lemma SameFlowParts(c: Code, d: Code)
    requires Shaped(c) && d == c.(part := d.part) && |d.part| == |c.part|
    ensures SameFlow(c, d) && Shaped(d) && SameFlow(d, d)
  {
    SameFlowShaped(c, d);
  }

  lemma StartMarks(c: Code)
    ensures MarkedFor(c, {}, [])
  {}

  lemma OutEdges(c: Code, b: nat)
    requires Shaped(c) && b < |c.succs|
    ensures |c.succs[b]| <= 2 && forall i :: 0 <= i < |c.succs[b]| ==> c.succs[b][i] < |c.edges| && c.edges[c.succs[b][i]].src == b
    ensures forall e :: 0 <= e < |c.edges| && c.edges[e].src == b ==> e in c.succs[b]
  {
    assert Form(c, b);
    if |c.succs[b]| > 0 { assert EdgeIn(c, b, 0); }
    if |c.succs[b]| > 1 { assert EdgeIn(c, b, 1); }
    forall e | 0 <= e < |c.edges| && c.edges[e].src == b ensures e in c.succs[b] { assert e in Out(c, b); }
  }

  lemma MarkedMore(m: Code, c: Code, e: nat, done: set<nat>, list: seq<nat>)
    requires Shaped(c) && SameFlow(m, c) && MarkedFor(c, done, list) && e < |c.edges| && c.edges[e].src != ENTRY
    ensures var d := MarkedEdge(c, e);
      && Shaped(d) && SameFlow(m, d) && d.part == c.part
      && MarkedFor(d, done + {e}, if Crosses(c, e) then list + [e] else list)
  {
    var d := MarkedEdge(c, e);
    var now := if Crosses(c, e) then list + [e] else list;
    SameFlowShaped(c, d);
    assert forall x :: 0 <= x < |c.edges| ==> Crosses(d, x) == Crosses(c, x);
    hide Shaped, Crosses;
    forall x | x in list ensures x in now {}
    if Crosses(c, e) { assert e in [e]; assert e in now; }
  }

  lemma InOrder(c: Code, aux: seq<int>, order: seq<nat>, k: nat)
    requires Listed(c, aux, order) && k < |order|
    ensures 1 < order[k] < |c.jump|
  {
    assert order[k] in order;
  }

  lemma SameOuts(m: Code, c: Code)
    requires SameFlow(m, c) && Shaped(c)
    ensures |m.jump| == |c.jump| == |c.succs| && forall b :: Out(m, b) == Out(c, b)
  {}

  lemma OutIs(c: Code, b: nat, e: nat)
    requires b < |c.succs| && |c.succs[b]| <= 2 && e in Out(c, b)
    ensures (|c.succs[b]| > 0 && e == c.succs[b][0]) || (|c.succs[b]| > 1 && e == c.succs[b][1])
  {}

  lemma AllMarked(c: Code, aux: seq<int>, order: seq<nat>, done: set<nat>, list: seq<nat>)
    requires Shaped(c) && MarkedFor(c, done, list) && Listed(c, aux, order)
    requires forall b, e :: b in order && e in Out(c, b) ==> e in done
    ensures WellFormed(c)
    ensures forall e :: 0 <= e < |c.edges| ==> c.edges[e].dest < |c.jump|
    ensures forall e :: 0 <= e < |c.edges| && c.edges[e].crossing ==> e in list
    ensures forall e :: e in list ==> e < |c.edges| && c.edges[e].crossing && 1 < c.edges[e].src < |c.jump|
  {
    forall e | 0 <= e < |c.edges| ensures e in done || c.edges[e].src == ENTRY {
      assert e in Out(c, c.edges[e].src);
    }
    forall e | e in list ensures 1 < c.edges[e].src < |c.jump| {
      assert e in Out(c, c.edges[e].src);
    }
    MarkedWell(c);
  }

  lemma PreservesSizes(c0: Code, c: Code)
    requires Preserves(c0, c)
    ensures |c0.jump| <= |c.jump| == |c.succs| == |c.part|
  {}

  lemma WithJumpEdges(c: Code, b: nat)
    requires InCode(c, b) && |c.succs[b]| > 0 && c.succs[b][0] < |c.edges|
    ensures |WithJump(c, b).edges| == |c.edges| && |WithJump(c, b).jump| == |c.jump|
    ensures forall e :: 0 <= e < |c.edges| ==> WithJump(c, b).edges[e].src == c.edges[e].src && WithJump(c, b).edges[e].dest == c.edges[e].dest
  {}

  lemma ListedSame(c: Code, d: Code, aux: seq<int>, order: seq<nat>)
    requires Listed(c, aux, order) && |d.jump| == |c.jump|
    ensures Listed(d, aux, order)
  {}

  lemma NothingDone(c: Code, aux: seq<int>, order: seq<nat>, crossingEdges: seq<nat>)
    requires WellFormed(c) && Listed(c, aux, order)
    requires forall e :: 0 <= e < |c.edges| && c.edges[e].crossing ==> e in crossingEdges
    requires forall e :: e in crossingEdges ==> e < |c.edges| && c.edges[e].crossing && 1 < c.edges[e].src < |c.jump|
    requires forall e :: 0 <= e < |c.edges| ==> c.edges[e].dest < |c.jump|
    ensures Fixing(c, c, aux, order)
  {
    PreservesSelf(c);
  }

  lemma NothingCrosses(c: Code, aux: seq<int>, order: seq<nat>, crossingEdges: seq<nat>)
    requires Fixing(c, c, aux, order) && crossingEdges == []
    requires forall e :: 0 <= e < |c.edges| && c.edges[e].crossing ==> e in crossingEdges
    ensures FallsFixed(c, order, |order|) && BranchesFixed(c, order, |order|)
  {
    forall k | 0 <= k < |order|
      ensures InCode(c, order[k]) && Form(c, order[k]) && NoCrossingFall(c, order[k]) && NoCrossingBranch(c, order[k])
    {
      FixingIn(c, c, aux, order, k);
      if |c.succs[order[k]]| > 0 { assert EdgeIn(c, order[k], 0); }
      if |c.succs[order[k]]| > 1 { assert EdgeIn(c, order[k], 1); }
    }
  }

  /** The source of e jumps, unless e leads to the exit. */
  predicate Jumps(c: Code, e: FlowEdge) {
    InCode(c, e.src) && (e.dest != EXIT && c.succs[e.src] != [] ==> !c.jump[e.src].NoJump?)
  }

  /** Only blocks that fell through have changed: they jump to where they fell through to. */
  predicate JumpsAdded(c: Code, d: Code) {
    && d.succs == c.succs && d.part == c.part && |d.jump| == |c.jump| == |c.succs| && |d.edges| == |c.edges|
    && (forall e :: 0 <= e < |c.edges| ==> d.edges[e] == c.edges[e].(fallthru := d.edges[e].fallthru))
    && (forall b :: 0 <= b < |c.jump| && d.jump[b] != c.jump[b] ==>
          c.jump[b].NoJump? && c.succs[b] != [] && c.succs[b][0] < |c.edges| && d.jump[b] == Goto(c.edges[c.succs[b][0]].dest))
  }

  lemma JumpsNone(c: Code)
    requires |c.jump| == |c.succs|
    ensures JumpsAdded(c, c)
  {}

  lemma JumpsEdge(c: Code, d: Code, e: nat)
    requires JumpsAdded(c, d) && e < |c.edges|
    ensures d.edges[e].src == c.edges[e].src && d.edges[e].dest == c.edges[e].dest && d.edges[e].crossing == c.edges[e].crossing
    ensures |d.edges| == |c.edges|
  {}

  lemma JumpsMore(c: Code, d: Code, b: nat)
    requires JumpsAdded(c, d) && InCode(d, b) && |d.succs[b]| > 0 && d.succs[b][0] < |d.edges| && d.jump[b].NoJump?
    ensures JumpsAdded(c, WithJump(d, b))
  {}

  lemma JumpsKept(c: Code, b: nat, e: nat)
    requires InCode(c, b) && |c.succs[b]| > 0 && c.succs[b][0] < |c.edges| && e < |c.edges| && Jumps(c, c.edges[e])
    ensures |WithJump(c, b).edges| == |c.edges| && Jumps(WithJump(c, b), WithJump(c, b).edges[e])
  {}

  lemma JumpsNow(c: Code, b: nat, e: nat)
    requires InCode(c, b) && |c.succs[b]| > 0 && c.succs[b][0] < |c.edges| && e < |c.edges| && c.edges[e].src == b
    ensures |WithJump(c, b).edges| == |c.edges| && Jumps(WithJump(c, b), WithJump(c, b).edges[e])
  {}

  lemma JumpsAlready(c: Code, e: nat)
    requires e < |c.edges| && InCode(c, c.edges[e].src)
    requires !(c.edges[e].dest != EXIT && c.jump[c.edges[e].src].NoJump? && c.succs[c.edges[e].src] != [])
    ensures Jumps(c, c.edges[e])
  {}

  class Body {
    var code: Code
    var aux: seq<int>
    var order: seq<nat>  // the order of FOR_EACH_BB

    constructor (c: Code, blocks: seq<nat>)
      ensures code == c && order == blocks && |aux| == |c.jump| && forall b :: 0 <= b < |aux| ==> aux[b] == NONE
    {
      code, order := c, blocks;
      aux := seq(|c.jump|, i => NONE);
    }

    /** Marking one edge. */
    method MarkEdge(e: nat, crossing: seq<nat>) returns (crossing': seq<nat>)
      requires e < |code.edges|
      modifies this`code
      ensures code == MarkedEdge(old(code), e)
      ensures crossing' == if Crosses(old(code), e) then crossing + [e] else crossing
    {
      var mark := Crosses(code, e);
      crossing' := if mark then crossing + [e] else crossing;
      code := code.(edges := code.edges[e := code.edges[e].(crossing := mark)]);
    }

    /** find_rarely_executed_basic_blocks_and_crossing_edges. Returns the crossing edges. */
    method FindCrossingEdges(never: nat -> bool) returns (crossingEdges: seq<nat>)
      requires Shaped(code) && Listed(code, aux, order)
      modifies this`code
      ensures WellFormed(code) && SameFlow(old(code), code) && Listed(code, aux, order)
      ensures forall e :: 0 <= e < |code.edges| ==> code.edges[e].dest < |code.jump|
      ensures forall b :: 1 < b < |code.part| ==> code.part[b] == if never(b) then Cold else Hot
      ensures forall e :: 0 <= e < |code.edges| && code.edges[e].crossing ==> e in crossingEdges
      ensures forall e :: e in crossingEdges ==> e < |code.edges| && code.edges[e].crossing && 1 < code.edges[e].src < |code.jump|
    {
      hide Chain, Once, Form, Exact, Shaped, SameFlow, MarkedFor, WellFormed, Listed, Out;
      ghost var c := code;
      MarkPartitions(never);
      ghost var m := code;
      crossingEdges := [];
      ghost var done: set<nat> := {};
      StartMarks(code);
      for k := 0 to |order|
        invariant SameFlow(m, code) && code.part == m.part && Shaped(code) && MarkedFor(code, done, crossingEdges)
        invariant forall b, e :: b in order[..k] && e in Out(m, b) ==> e in done
      {
        var b := order[k];
        InOrder(m, aux, order, k);
        SameOuts(m, code);
        OutEdges(code, b);
        if |code.succs[b]| > 0 {
          MarkedMore(m, code, code.succs[b][0], done, crossingEdges);
          done := done + {code.succs[b][0]};
          crossingEdges := MarkEdge(code.succs[b][0], crossingEdges);
          SameOuts(m, code);
          OutEdges(code, b);
        }
        if |code.succs[b]| > 1 {
          MarkedMore(m, code, code.succs[b][1], done, crossingEdges);
          done := done + {code.succs[b][1]};
          crossingEdges := MarkEdge(code.succs[b][1], crossingEdges);
          SameOuts(m, code);
          OutEdges(code, b);
        }
        forall e | e in Out(m, b) ensures e in done { OutIs(code, b, e); }
        assert order[..k + 1] == order[..k] + [b];
      }
      assert order[..|order|] == order;
      SameOuts(m, code);
      ListedSame(m, code, aux, order);
      AllMarked(code, aux, order, done, crossingEdges);
      SameSizes(c, m, code);
    }

    /** The first loop: which partition each block belongs to. */
    method MarkPartitions(never: nat -> bool)
      requires Shaped(code) && Listed(code, aux, order)
      modifies this`code
      ensures Shaped(code) && SameFlow(old(code), code) && SameFlow(code, code) && Listed(code, aux, order)
      ensures forall b :: 1 < b < |code.part| ==> code.part[b] == if never(b) then Cold else Hot
    {
      hide Chain, Once, Form, Exact, Shaped, SameFlow;
      ghost var c := code;
      ShapedSizes(c);
      for k := 0 to |order|
        invariant code == c.(part := code.part) && |code.part| == |c.part|
        invariant forall b :: b in order[..k] ==> b < |code.part| && code.part[b] == if never(b) then Cold else Hot
      {
        assert order[k] in order;
        code := code.(part := code.part[order[k] := if never(order[k]) then Cold else Hot]);
        assert order[..k + 1] == order[..k] + [order[k]];
      }
      assert order[..|order|] == order;
      SameFlowParts(c, code);
    }

    /** add_labels_and_missing_jumps: a block that falls through along a crossing edge is made to jump. */
    method AddLabelsAndMissingJumps(crossingEdges: seq<nat>, ghost c0: Code)
      requires Fixing(c0, code, aux, order)
      requires forall e :: e in crossingEdges ==> e < |code.edges| && code.edges[e].crossing && 1 < code.edges[e].src < |c0.jump|
      modifies this`code
      ensures Fixing(c0, code, aux, order) && JumpsAdded(old(code), code) && FallsPlaced(old(code), aux, code, aux)
      ensures forall e :: e in crossingEdges ==> e < |code.edges| && Jumps(code, code.edges[e])
    {
      hide Fixing, Form, Exact, Step, NoCrossingFall, Preserves, WellFormed, EditedAt, Listed, Falling, WithJump, JumpsAdded, Jumps;
      ghost var was := code;
      FixingParts(c0, code, aux, order);
      FixingWell(c0, code, aux, order);
      PreservesSizes(c0, code);
      JumpsNone(code);
      for i := 0 to |crossingEdges|
        invariant Fixing(c0, code, aux, order) && JumpsAdded(was, code) && |code.edges| == |was.edges|
        invariant forall k :: 0 <= k < i ==> crossingEdges[k] < |code.edges| && Jumps(code, code.edges[crossingEdges[k]])
      {
        var e := crossingEdges[i];
        assert e in crossingEdges;
        FixingParts(c0, code, aux, order);
        PreservesSizes(c0, code);
        JumpsEdge(was, code, e);
        var src := code.edges[e].src;
        if code.edges[e].dest != EXIT && code.jump[src].NoJump? && code.succs[src] != [] {
          ghost var c := code;
          JumpAddedAt(c0, code, src);
          WithJumpEdges(c, src);
          code := WithJump(code, src);
          ListedSame(c, code, aux, order);
          FixingAgain(c0, code, aux, order);
          JumpsMore(was, c, src);
          forall k | 0 <= k < i ensures Jumps(code, code.edges[crossingEdges[k]]) {
            assert crossingEdges[k] in crossingEdges;
            JumpsKept(c, src, crossingEdges[k]);
          }
          JumpsNow(c, src, e);
        } else {
          JumpsAlready(code, e);
        }
      }
      FixingPlaced(c0, was, code, aux, order);
    }

    /** The part of fix_up_fall_thru_edges for one block, at position k. canInvert tells whether invert_jump works on it. */
    method FixUpFallThru(k: nat, canInvert: bool, ghost c0: Code)
      requires Fixing(c0, code, aux, order) && k < |order| && FallsFixed(code, order, k)
      modifies this
      ensures Fixing(c0, code, aux, order) && WellFormed(code) && WellFormed(old(code))
      ensures FallsFixed(code, order, k + 1) && |old(order)| <= |order|
      ensures Falling(code) < Falling(old(code)) || (code == old(code) && order == old(order))
      ensures FallMended(old(code), old(aux), old(order), canInvert, k, code, order)
      ensures FallsPlaced(old(code), old(aux), code, aux)
    {
      hide Fixing, FallsFixed, Exact, Step, NoCrossingFall, Preserves, WellFormed, EditedAt, Listed, Falling, FallMended,
        FallsPlaced, PlacedAt, Form;
      FixingWell(c0, code, aux, order);
      FixingIn(c0, code, aux, order, k);
      FixingParts(c0, code, aux, order);
      ghost var c := code;
      var cur := order[k];
      FormEdges(code, cur);
      // Find the fall-through edge.
      var fallThru, condJump := NONE, NONE;
      var succs := code.succs[cur];
      if |succs| > 0 && code.edges[succs[0]].fallthru {
        fallThru := succs[0];
        condJump := if |succs| > 1 then succs[1] else NONE;
      } else if |succs| > 1 && code.edges[succs[1]].fallthru {
        fallThru := succs[1];
        condJump := succs[0];
      }
      if fallThru != NONE && code.edges[fallThru].dest != EXIT && code.edges[fallThru].crossing {
        if condJump != NONE { TwoWayOf(code, cur); }
        var condJumpCrosses, invertWorked := true, false;
        if condJump != NONE {
          condJumpCrosses := code.edges[condJump].crossing;
          // If the branch does not cross and leads to the next block, exchange the two.
          if !condJumpCrosses && aux[cur] == code.edges[condJump].dest {
            invertWorked := canInvert;
            if invertWorked {
              InvertedAt(c0, code, cur, fallThru, condJump);
              InvertedMended(c, aux, order, k, fallThru, condJump);
              code := Inverted(code, cur, fallThru, condJump);
              FixingEdited(c0, c, code, aux, order, k);
              PlacedEdited(c, aux, code, aux, cur);
            }
          }
        }
        if condJumpCrosses || !invertWorked {
          ForceNonFallthru(cur, fallThru, condJump, k, canInvert, c0);
        }
      } else {
        NotFalling(c, cur, fallThru, condJump);
        FallsSame(c, order, k);
        NothingMended(c, aux, order, canInvert, k);
        PlacedSelf(c, aux);
      }
    }

    /** fix_up_fall_thru_edges. At the end no block falls through into the other partition. */
    method FixUpFallThruEdges(canInvert: nat -> bool, ghost c0: Code)
      requires Fixing(c0, code, aux, order)
      modifies this
      ensures Fixing(c0, code, aux, order) && FallsFixed(code, order, |order|) && FallsPlaced(old(code), old(aux), code, aux)
    {
      hide Fixing, FallsFixed, WellFormed, Falling, FallsPlaced, FallMended;
      FixingWell(c0, code, aux, order);
      NothingFixed(code, order);
      PlacedSelf(code, aux);
      var k := 0;
      while k < |order|
        invariant 0 <= k <= |order| && Fixing(c0, code, aux, order) && FallsFixed(code, order, k) && WellFormed(code)
        invariant FallsPlaced(old(code), old(aux), code, aux)
        decreases Falling(code), |order| - k
      {
        ghost var c, links := code, aux;
        FixUpFallThru(k, canInvert(order[k]), c0);
        PlacedTwice(old(code), old(aux), c, links, code, aux);
        k := k + 1;
      }
    }

    /** The part of fix_crossing_conditional_branches for one block: a branch into the other partition is made to lead
        to a new block at the end, which jumps there. */
    method FixCrossingBranch(k: nat, ghost c0: Code)
      requires Fixing(c0, code, aux, order) && k < |order| && FallsFixed(code, order, |order|) && BranchesFixed(code, order, k)
      modifies this
      ensures Fixing(c0, code, aux, order) && FallsFixed(code, order, |order|) && BranchesFixed(code, order, k + 1)
      ensures WellFormed(code) && WellFormed(old(code)) && |old(order)| <= |order|
      ensures Branching(code) < Branching(old(code)) || (code == old(code) && order == old(order))
      ensures BranchMended(old(code), old(order), k, code, order) && FallsPlaced(old(code), old(aux), code, aux)
    {
      hide Fixing, FallsFixed, BranchesFixed, Exact, Step, NoCrossingFall, NoCrossingBranch, Preserves, WellFormed, EditedAt, Listed,
        Branching, Retargeted, Inserted, FallsPlaced, PlacedAt, BranchMended;
      FixingWell(c0, code, aux, order);
      FixingIn(c0, code, aux, order, k);
      FixingParts(c0, code, aux, order);
      ghost var c := code;
      var cur := order[k];
      var crossingEdge := NONE;
      var succs := code.succs[cur];
      if |succs| > 0 && code.edges[succs[0]].crossing {
        crossingEdge := succs[0];
      } else if |succs| > 1 && code.edges[succs[1]].crossing {
        crossingEdge := succs[1];
      }
      if crossingEdge != NONE && code.jump[cur].Branch? {
        TwoWayOf(code, cur);
        ghost var other := if crossingEdge == succs[0] then succs[1] else succs[0];
        OnlyBranchCrosses(code, order, k, other, crossingEdge);
        RetargetedAt(c0, code, cur, other, crossingEdge);
        // Create a new basic block to be the destination for the conditional jump.
        var lastBb := order[|order| - 1];
        var n := |code.jump|;
        code := Retargeted(code, cur, crossingEdge);
        AllEdited(c0, c, code, aux, order, k, n);
        ListedMore(c, code, aux, order, |order| - 1);
        InsertedAtEnd(order, n);
        LastBlock(c, aux, order);
        RetargetMended(c, aux, order, k, other, crossingEdge);
        ghost var links := aux;
        aux := aux[lastBb := n] + [aux[lastBb]];
        order := order + [n];
        FixingAgain(c0, code, aux, order);
        PlacedEdited(c, links, code, aux, cur);
      } else {
        NotBranching(c, cur, crossingEdge);
        BranchesSame(c, order, k);
        NotMended(c, order, k);
        PlacedSelf(c, aux);
      }
    }

    /** fix_crossing_conditional_branches. At the end no block branches into the other partition. */
    method FixCrossingConditionalBranches(ghost c0: Code)
      requires Fixing(c0, code, aux, order) && FallsFixed(code, order, |order|)
      modifies this
      ensures Fixing(c0, code, aux, order) && FallsFixed(code, order, |order|) && BranchesFixed(code, order, |order|)
      ensures FallsPlaced(old(code), old(aux), code, aux)
    {
      hide Fixing, FallsFixed, BranchesFixed, WellFormed, Branching, FallsPlaced, BranchMended;
      FixingWell(c0, code, aux, order);
      NothingFixed(code, order);
      PlacedSelf(code, aux);
      var k := 0;
      while k < |order|
        invariant 0 <= k <= |order| && Fixing(c0, code, aux, order) && WellFormed(code)
        invariant FallsFixed(code, order, |order|) && BranchesFixed(code, order, k)
        invariant FallsPlaced(old(code), old(aux), code, aux)
        decreases Branching(code), |order| - k
      {
        ghost var c, links := code, aux;
        FixCrossingBranch(k, c0);
        PlacedTwice(old(code), old(aux), c, links, code, aux);
        k := k + 1;
      }
    }

    /** The loop that makes aux follow the order of the blocks. */
    method LinkBlocks()
      requires |aux| == |code.jump| && (forall b :: 0 <= b < |aux| ==> aux[b] == NONE)
      requires Once(order) && (forall b :: b in order <==> 1 < b < |code.jump|)
      modifies this`aux
      ensures Listed(code, aux, order)
    {
      forall j | 0 <= j < |order| ensures order[j] < |aux| { assert order[j] in order; }
      for k := 0 to |order|
        invariant |aux| == |code.jump|
        invariant forall j :: 0 <= j < |order| ==> order[j] < |aux| && aux[order[j]] == if j < k then Next(order, j, NONE) else NONE
      {
        assert order[k] in order;
        if k + 1 < |order| {
          aux := aux[order[k] := order[k + 1]];
        }
      }
    }

    /** partition_hot_cold_basic_blocks, with the conversion to indirect jumps left out. At the end no block falls
        through into the other partition, and without long conditional branches none branches into it either;
        marked is the code after the partitions were marked, and every run goes on as it did there; links is the order in
        which its blocks were, and a block that falls through to another one than there falls through to the next. */
    method PartitionHotColdBasicBlocks(never: nat -> bool, canInvert: nat -> bool, hasLongCondBranch: bool)
      returns (ghost marked: Code, ghost links: seq<int>)
      requires Shaped(code) && |aux| == |code.jump| && (forall b :: 0 <= b < |aux| ==> aux[b] == NONE)
      requires Once(order) && (forall b :: b in order <==> 1 < b < |code.jump|)
      modifies this
      ensures SameFlow(old(code), marked) && Fixing(marked, code, aux, order)
      ensures forall b :: 1 < b < |marked.part| ==> marked.part[b] == if never(b) then Cold else Hot
      ensures FallsFixed(code, order, |order|)
      ensures !hasLongCondBranch ==> BranchesFixed(code, order, |order|)
      ensures Listed(marked, links, old(order)) && FallsPlaced(marked, links, code, aux)
      ensures FallsInOrder(marked, links) ==> FallsInOrder(code, aux)
    {
      hide Listed, Fixing, FallsFixed, BranchesFixed, SameFlow, Shaped, WellFormed, Form, FallsPlaced, FallsInOrder;
      LinkBlocks();
      var crossingEdges := FindCrossingEdges(never);
      marked := code;
      links := aux;
      NothingDone(marked, aux, order, crossingEdges);
      FixingWell(marked, code, aux, order);
      PlacedSelf(marked, aux);
      if |crossingEdges| > 0 {
        AddLabelsAndMissingJumps(crossingEdges, marked);
        ghost var c := code;
        FixUpFallThruEdges(canInvert, marked);
        PlacedTwice(marked, links, c, links, code, aux);
        if !hasLongCondBranch {
          ghost var d, more := code, aux;
          FixCrossingConditionalBranches(marked);
          PlacedTwice(marked, links, d, more, code, aux);
        }
      } else {
        NothingCrosses(marked, aux, order, crossingEdges);
      }
      FixingParts(marked, code, aux, order);
      if FallsInOrder(marked, links) { OrderKept(marked, links, code, aux); }
    }

    /** force_nonfallthru on the edge fallThru out of cur, and the placement of the new block, if there is one. */
    method ForceNonFallthru(cur: nat, fallThru: nat, ghost condJump: int, k: nat, ghost canInvert: bool, ghost c0: Code)
      requires Fixing(c0, code, aux, order) && k < |order| && FallsFixed(code, order, k) && cur == order[k]
      requires InCode(code, cur) && Form(code, cur) && fallThru < |code.edges| && code.edges[fallThru].crossing
      requires if condJump == NONE then code.jump[cur].NoJump? && code.succs[cur] == [fallThru] && code.edges[fallThru].fallthru
               else condJump >= 0 && TwoWay(code, cur, fallThru, condJump)
      requires code.edges[fallThru].dest != EXIT && cur < |aux| == |code.jump|
      requires condJump != NONE ==> !canInvert || code.edges[condJump].crossing || aux[cur] != code.edges[condJump].dest
      modifies this
      ensures Fixing(c0, code, aux, order) && WellFormed(code) && WellFormed(old(code))
      ensures FallsFixed(code, order, k + 1) && |old(order)| <= |order|
      ensures Falling(code) < Falling(old(code))
      ensures FallMended(old(code), old(aux), old(order), canInvert, k, code, order)
      ensures FallsPlaced(old(code), old(aux), code, aux)
    {
      hide Fixing, FallsFixed, Exact, Step, NoCrossingFall, Preserves, WellFormed, EditedAt, Listed, Falling, Forced, WithJump, Inserted,
        FallMended, FallsPlaced, PlacedAt, Form;
      FixingIn(c0, code, aux, order, k);
      FixingParts(c0, code, aux, order);
      ghost var c := code;
      if |code.succs[cur]| >= 2 {
        ForcedAt(c0, code, cur, fallThru, condJump);
        var n := |code.jump|;
        ForcedMended(c, aux, order, canInvert, k, fallThru, condJump);
        ghost var links := aux;
        code := Forced(code, cur, fallThru);
        FallsEdited(c0, c, code, aux, order, k);
        ListedMore(c, code, aux, order, k);
        FallsInserted(code, order, k, n);
        InsertedSize(order, k, n);
        aux := aux[cur := n] + [aux[cur]];
        order := Inserted(order, k, n);
        FixingAgain(c0, code, aux, order);
        PlacedEdited(c, links, code, aux, cur);
      } else {
        NowFalling(c, cur, fallThru);
        JumpAddedAt(c0, code, cur);
        JumpMended(c, aux, order, canInvert, k, fallThru);
        code := WithJump(code, cur);
        FixingEdited(c0, c, code, aux, order, k);
        PlacedEdited(c, aux, code, aux, cur);
      }
    }
  }

  lemma InsertedSize(order: seq<nat>, k: nat, n: nat)
    requires k < |order|
    ensures |Inserted(order, k, n)| == |order| + 1
  {}

  lemma FixingAgain(c0: Code, c: Code, aux: seq<int>, order: seq<nat>)
    requires Preserves(c0, c) && Listed(c, aux, order)
    ensures Fixing(c0, c, aux, order) && WellFormed(c)
  {}

  lemma FixingEdited(c0: Code, c: Code, d: Code, aux: seq<int>, order: seq<nat>, k: nat)
    requires Fixing(c0, c, aux, order) && k < |order| && FallsFixed(c, order, k) && EditedAt(c, d, order[k]) && Preserves(c0, d)
    requires InCode(d, order[k]) && Form(d, order[k]) && NoCrossingFall(d, order[k]) && |d.jump| == |c.jump|
    ensures Fixing(c0, d, aux, order) && FallsFixed(d, order, k + 1) && WellFormed(d)
  {
    FallsEdited(c0, c, d, aux, order, k);
    hide Form, Exact, Step, EditedAt, Preserves, NoCrossingFall;
  }

  lemma NotFalling(c: Code, b: nat, f: int, g: int)
    requires InCode(c, b) && Form(c, b) && Exact(c, b)
    requires f == if |c.succs[b]| > 0 && c.edges[c.succs[b][0]].fallthru then c.succs[b][0]
                  else if |c.succs[b]| > 1 && c.edges[c.succs[b][1]].fallthru then c.succs[b][1] else NONE
    requires f == NONE || c.edges[f].dest == EXIT || !c.edges[f].crossing
    ensures NoCrossingFall(c, b)
  {}

  lemma NowFalling(c: Code, b: nat, f: nat)
    requires InCode(c, b) && Form(c, b) && c.succs[b] == [f] && f < |c.edges| && c.edges[f].fallthru && c.edges[f].crossing
    ensures !NoCrossingFall(c, b)
  {}

  lemma FallsSame(c: Code, order: seq<nat>, k: nat)
    requires FallsFixed(c, order, k) && k < |order| && InCode(c, order[k]) && Form(c, order[k]) && NoCrossingFall(c, order[k])
    ensures FallsFixed(c, order, k + 1)
  {}

  // ---- find_jump_block ----

  datatype Insn = Label | Note | Real(isJump: bool, conditional: bool)

  /** What find_jump_block is documented to look for: a label, and then only one executable insn, an unconditional jump. */
  predicate JumpsOnly(insns: seq<Insn>) {
    && |insns| > 0 && insns[0].Label?
    && insns[|insns| - 1] == Real(true, false)
    && forall i :: 0 <= i < |insns| - 1 ==> !insns[i].Real?
  }

  /** The loop of find_jump_block over the insns of a block. It looks at executable insns only and ends before the
      first of them, so it finds nothing. */
  method LooksLikeJump(insns: seq<Insn>) returns (found: bool)
    ensures !found
  {
    found := false;
    if |insns| > 0 && insns[0].Label? {
      var i := 0;
      while i < |insns| && !insns[i].Real?
        invariant 0 <= i <= |insns| && !found
      {
        var insn := insns[i];
        if i == |insns| - 1 && insn == Real(true, false) {
          found := true;
          break;
        }
        i := i + 1;
      }
    }
  }

  lemma SomeBlockJumpsOnly()
    ensures JumpsOnly([Label, Note, Real(true, false)])
  {}
}
