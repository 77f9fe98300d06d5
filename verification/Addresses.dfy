/** Address disambiguation: canon_rtx, rtx_equal_for_memref_p and memrefs_conflict_p of alias.c, for addresses made of
    registers, integers, sums and products in one mode. */
module Addresses {
  datatype Expr = Reg(n: nat) | Const(v: int) | Plus(x0: Expr, x1: Expr) | Mult(x0: Expr, x1: Expr)

  /** reg_known_value. A register has a rank above those of the registers in its known value. */
  datatype Known = Known(value: map<nat, Expr>, rank: map<nat, nat>)

  function Rank(k: Known, r: nat): nat {
    if r in k.rank then k.rank[r] else 0
  }

  /** All registers of x have ranks below this. */
  function Top(k: Known, x: Expr): nat {
    match x
    case Reg(r) => Rank(k, r) + 1
    case Const(_) => 0
    case Plus(a, b) => if Top(k, a) < Top(k, b) then Top(k, b) else Top(k, a)
    case Mult(a, b) => if Top(k, a) < Top(k, b) then Top(k, b) else Top(k, a)
  }

  /** No register is needed, directly or not, for its own known value. */
  predicate Acyclic(k: Known) {
    forall r :: r in k.value ==> Top(k, k.value[r]) <= Rank(k, r)
  }

  /** The size of x once every known value is substituted. */
  function Weight(k: Known, x: Expr): (w: nat)
    requires Acyclic(k)
    ensures w > 0
    decreases Top(k, x), x
  {
    match x
    case Reg(r) => if r in k.value then Weight(k, k.value[r]) else 1
    case Const(_) => 1
    case Plus(a, b) => 1 + Weight(k, a) + Weight(k, b)
    case Mult(a, b) => 1 + Weight(k, a) + Weight(k, b)
  }

  // ---- values ----

  function Eval(x: Expr, env: nat -> int): int {
    match x
    case Reg(r) => env(r)
    case Const(v) => v
    case Plus(a, b) => Eval(a, env) + Eval(b, env)
    case Mult(a, b) => Eval(a, env) * Eval(b, env)
  }

  /** The registers hold their known values. */
  ghost predicate Consistent(k: Known, env: nat -> int) {
    forall r :: r in k.value ==> env(r) == Eval(k.value[r], env)
  }

  // ---- plus_constant (explow.c) ----

  /** find_constant_term_loc finds something. */
  predicate HasConstantTerm(x: Expr) {
    match x
    case Const(_) => true
    case Plus(a, b) => HasConstantTerm(a) || HasConstantTerm(b)
    case _ => false
  }

  /** plus_constant applied to the term that find_constant_term_loc finds. */
  function AddAtTerm(x: Expr, c: int): Expr
    requires HasConstantTerm(x)
  {
    match x
    case Const(v) => Const(v + c)
    case Plus(a, b) =>
      if a.Const? && b.Const? then Const(a.v + b.v + c)
      else if HasConstantTerm(a) then Plus(AddAtTerm(a, c), b)
      else Plus(a, AddAtTerm(b, c))
  }

  /** plus_constant from the label `restart` on. */
  function PlusRestart(x: Expr, c: int): Expr {
    match x
    case Const(v) => Const(v + c)
    case Plus(a, b) =>
      if b.Const? then PlusRestart(a, c + b.v)
      else if HasConstantTerm(x) then AddAtTerm(x, c)
      else if c != 0 then Plus(x, Const(c)) else x
    case _ => if c != 0 then Plus(x, Const(c)) else x
  }

  function PlusConstant(x: Expr, c: int): Expr {
    if c == 0 then x else PlusRestart(x, c)
  }

  lemma {:induction false} AddAtTermValue(k: Known, x: Expr, c: int, env: nat -> int)
    requires HasConstantTerm(x) && Acyclic(k)
    ensures Eval(AddAtTerm(x, c), env) == Eval(x, env) + c
    ensures Weight(k, AddAtTerm(x, c)) <= Weight(k, x) && Top(k, AddAtTerm(x, c)) <= Top(k, x)
  {
    match x
    case Const(_) =>
    case Plus(a, b) =>
      if a.Const? && b.Const? {
      } else if HasConstantTerm(a) {
        AddAtTermValue(k, a, c, env);
      } else {
        AddAtTermValue(k, b, c, env);
      }
  }

  lemma {:induction false} PlusRestartValue(k: Known, x: Expr, c: int, env: nat -> int)
    requires Acyclic(k)
    ensures Eval(PlusRestart(x, c), env) == Eval(x, env) + c
    ensures Weight(k, PlusRestart(x, c)) <= Weight(k, x) + 2 && Top(k, PlusRestart(x, c)) <= Top(k, x)
  {
    match x
    case Plus(a, b) =>
      if b.Const? {
        PlusRestartValue(k, a, c + b.v, env);
      } else if HasConstantTerm(x) {
        AddAtTermValue(k, x, c, env);
      }
    case _ =>
  }

  /** plus_constant adds c, and makes the expression larger by at most one sum. */
  lemma PlusConstantValue(k: Known, x: Expr, c: int, env: nat -> int)
    requires Acyclic(k)
    ensures Eval(PlusConstant(x, c), env) == Eval(x, env) + c
    ensures Weight(k, PlusConstant(x, c)) <= Weight(k, x) + 2 && Top(k, PlusConstant(x, c)) <= Top(k, x)
  {
    PlusRestartValue(k, x, c, env);
  }

  // ---- canon_rtx ----

  function Canon(k: Known, x: Expr): Expr
    requires Acyclic(k)
    decreases Top(k, x), x
  {
    match x
    case Reg(r) => if r in k.value then Canon(k, k.value[r]) else x
    case Plus(a, b) =>
      var c0, c1 := Canon(k, a), Canon(k, b);
      if c0 == a && c1 == b then x
      else if c0.Const? then PlusConstant(c1, c0.v)
      else if c1.Const? then PlusConstant(c0, c1.v)
      else Plus(c0, c1)
    case _ => x
  }

  /** canon_rtx does not change the value of an address, nor makes it larger. */
  lemma {:induction false} CanonValue(k: Known, x: Expr, env: nat -> int)
    requires Acyclic(k)
    ensures Consistent(k, env) ==> Eval(Canon(k, x), env) == Eval(x, env)
    ensures Weight(k, Canon(k, x)) <= Weight(k, x)
    ensures Top(k, Canon(k, x)) <= Top(k, x)
    decreases Top(k, x), x
  {
    match x
    case Reg(r) => if r in k.value { CanonValue(k, k.value[r], env); }
    case Plus(a, b) =>
      CanonValue(k, a, env);
      CanonValue(k, b, env);
      var c0, c1 := Canon(k, a), Canon(k, b);
      if c0.Const? { PlusConstantValue(k, c1, c0.v, env); }
      if c1.Const? { PlusConstantValue(k, c0, c1.v, env); }
    case _ =>
  }

  /** A register with a known value does not occur in a sum that canon_rtx returns, outside products. */
  predicate Settled(k: Known, x: Expr) {
    match x
    case Reg(r) => r !in k.value
    case Plus(a, b) => Settled(k, a) && Settled(k, b)
    case _ => true
  }

  // ---- rtx_equal_for_memref_p ----

  function EqualForMemref(k: Known, x: Expr, y: Expr): bool
    requires Acyclic(k)
    decreases Weight(k, x), x
  {
    match (x, y)
    case (Reg(m), Reg(n)) => m == n
    case (Const(u), Const(v)) => u == v
    case (Plus(a, b), Plus(c, d)) =>
      (EqualForMemref(k, a, c) && EqualForMemref(k, b, d)) || (EqualForMemref(k, a, d) && EqualForMemref(k, b, c))
    case (Mult(a, b), Mult(c, d)) =>
      CanonValue(k, a, (r) => 0);
      CanonValue(k, b, (r) => 0);
      var p, q, r, s := Canon(k, a), Canon(k, b), Canon(k, c), Canon(k, d);
      (EqualForMemref(k, p, r) && EqualForMemref(k, q, s)) || (EqualForMemref(k, p, s) && EqualForMemref(k, q, r))
    case _ => false
  }

  /** Addresses found equal have the same value. */
  lemma {:induction false} EqualValue(k: Known, x: Expr, y: Expr, env: nat -> int)
    requires Acyclic(k) && Consistent(k, env) && EqualForMemref(k, x, y)
    ensures Eval(x, env) == Eval(y, env)
    decreases Weight(k, x), x
  {
    match (x, y)
    case (Plus(a, b), Plus(c, d)) =>
      if EqualForMemref(k, a, c) && EqualForMemref(k, b, d) {
        EqualValue(k, a, c, env);
        EqualValue(k, b, d, env);
      } else {
        EqualValue(k, a, d, env);
        EqualValue(k, b, c, env);
      }
    case (Mult(a, b), Mult(c, d)) =>
      CanonValue(k, a, env);
      CanonValue(k, b, env);
      CanonValue(k, c, env);
      CanonValue(k, d, env);
      var p, q, r, s := Canon(k, a), Canon(k, b), Canon(k, c), Canon(k, d);
      if EqualForMemref(k, p, r) && EqualForMemref(k, q, s) {
        EqualValue(k, p, r, env);
        EqualValue(k, q, s, env);
      } else {
        EqualValue(k, p, s, env);
        EqualValue(k, q, r, env);
      }
    case _ =>
  }

  /** Comparing an address with itself finds it equal. */
  lemma {:induction false} EqualSelf(k: Known, x: Expr)
    requires Acyclic(k)
    ensures EqualForMemref(k, x, x)
    decreases Weight(k, x), x
  {
    match x
    case Plus(a, b) =>
      EqualSelf(k, a);
      EqualSelf(k, b);
    case Mult(a, b) =>
      CanonValue(k, a, (r) => 0);
      CanonValue(k, b, (r) => 0);
      EqualSelf(k, Canon(k, a));
      EqualSelf(k, Canon(k, b));
    case _ =>
  }

  /** The order of operands does not matter, and those of a product may be canonicalized first. */
  lemma EqualCommutes(k: Known, a: Expr, b: Expr)
    requires Acyclic(k)
    ensures EqualForMemref(k, Plus(a, b), Plus(b, a)) && EqualForMemref(k, Mult(a, b), Mult(b, a))
    ensures EqualForMemref(k, Mult(a, b), Mult(Canon(k, a), Canon(k, b)))
  {
    EqualSelf(k, a);
    EqualSelf(k, b);
    EqualSelf(k, Canon(k, a));
    EqualSelf(k, Canon(k, b));
    CanonTwice(k, a);
    CanonTwice(k, b);
  }

  /** Being found equal is symmetric. */
  lemma {:induction false} EqualSymmetric(k: Known, x: Expr, y: Expr)
    requires Acyclic(k) && EqualForMemref(k, x, y)
    ensures EqualForMemref(k, y, x)
    decreases Weight(k, x), x
  {
    match (x, y)
    case (Plus(a, b), Plus(c, d)) =>
      if EqualForMemref(k, a, c) && EqualForMemref(k, b, d) {
        EqualSymmetric(k, a, c);
        EqualSymmetric(k, b, d);
      } else {
        EqualSymmetric(k, a, d);
        EqualSymmetric(k, b, c);
      }
    case (Mult(a, b), Mult(c, d)) =>
      CanonValue(k, a, (r) => 0);
      CanonValue(k, b, (r) => 0);
      var p, q, r, s := Canon(k, a), Canon(k, b), Canon(k, c), Canon(k, d);
      if EqualForMemref(k, p, r) && EqualForMemref(k, q, s) {
        EqualSymmetric(k, p, r);
        EqualSymmetric(k, q, s);
      } else {
        EqualSymmetric(k, p, s);
        EqualSymmetric(k, q, r);
      }
    case _ =>
  }

  /** And transitive, although operands are compared in either order. */
  lemma {:induction false} EqualTransitive(k: Known, x: Expr, y: Expr, z: Expr)
    requires Acyclic(k) && EqualForMemref(k, x, y) && EqualForMemref(k, y, z)
    ensures EqualForMemref(k, x, z)
    decreases Weight(k, x), 1
  {
    match (x, y, z)
    case (Plus(a, b), Plus(c, d), Plus(e, f)) =>
      PairsTransitive(k, x, a, b, c, d, e, f);
    case (Mult(a, b), Mult(c, d), Mult(e, f)) =>
      CanonValue(k, a, (r) => 0);
      CanonValue(k, b, (r) => 0);
      PairsTransitive(k, x, Canon(k, a), Canon(k, b), Canon(k, c), Canon(k, d), Canon(k, e), Canon(k, f));
    case _ =>
  }

  predicate EqualPairs(k: Known, a: Expr, b: Expr, c: Expr, d: Expr)
    requires Acyclic(k)
  {
    (EqualForMemref(k, a, c) && EqualForMemref(k, b, d)) || (EqualForMemref(k, a, d) && EqualForMemref(k, b, c))
  }

  lemma {:induction false} PairsTransitive(k: Known, x: Expr, a: Expr, b: Expr, c: Expr, d: Expr, e: Expr, f: Expr)
    requires Acyclic(k) && EqualPairs(k, a, b, c, d) && EqualPairs(k, c, d, e, f)
    requires Weight(k, a) < Weight(k, x) && Weight(k, b) < Weight(k, x)
    ensures EqualPairs(k, a, b, e, f)
    decreases Weight(k, x), 0
  {
    hide EqualForMemref;
    var straight := EqualForMemref(k, a, c) && EqualForMemref(k, b, d);
    var g, h := if straight then c else d, if straight then d else c;
    if EqualForMemref(k, g, e) && EqualForMemref(k, h, f) {
      EqualTransitive(k, a, g, e);
      EqualTransitive(k, b, h, f);
    } else {
      EqualTransitive(k, a, g, f);
      EqualTransitive(k, b, h, e);
    }
  }

  lemma {:induction false} AddAtTermSettled(k: Known, x: Expr, c: int)
    requires HasConstantTerm(x) && Settled(k, x)
    ensures Settled(k, AddAtTerm(x, c))
  {
    match x
    case Const(_) =>
    case Plus(a, b) =>
      if !(a.Const? && b.Const?) {
        if HasConstantTerm(a) { AddAtTermSettled(k, a, c); } else { AddAtTermSettled(k, b, c); }
      }
  }

  lemma {:induction false} PlusRestartSettled(k: Known, x: Expr, c: int)
    requires Settled(k, x)
    ensures Settled(k, PlusRestart(x, c))
  {
    match x
    case Plus(a, b) =>
      if b.Const? { PlusRestartSettled(k, a, c + b.v); } else if HasConstantTerm(x) { AddAtTermSettled(k, x, c); }
    case _ =>
  }

  lemma {:induction false} CanonSettled(k: Known, x: Expr)
    requires Acyclic(k)
    ensures Settled(k, Canon(k, x))
    decreases Top(k, x), x
  {
    match x
    case Reg(r) => if r in k.value { CanonSettled(k, k.value[r]); }
    case Plus(a, b) =>
      CanonSettled(k, a);
      CanonSettled(k, b);
      var c0, c1 := Canon(k, a), Canon(k, b);
      if c0.Const? { PlusRestartSettled(k, c1, c0.v); }
      if c1.Const? { PlusRestartSettled(k, c0, c1.v); }
    case _ =>
  }

  lemma {:induction false} CanonOfSettled(k: Known, x: Expr)
    requires Acyclic(k) && Settled(k, x)
    ensures Canon(k, x) == x
  {
    match x
    case Plus(a, b) =>
      CanonOfSettled(k, a);
      CanonOfSettled(k, b);
    case _ =>
  }

  /** Canonicalizing once is enough. */
  lemma CanonTwice(k: Known, x: Expr)
    requires Acyclic(k)
    ensures Canon(k, Canon(k, x)) == Canon(k, x)
  {
    CanonSettled(k, x);
    CanonOfSettled(k, Canon(k, x));
  }

  // ---- memrefs_conflict_p ----

  /** A question: may xs bytes at x and ys bytes at y + c overlap? */
  datatype Query = Query(xs: int, x: Expr, ys: int, y: Expr, c: int)

  /** What one call does: it answers, or asks another question (after division of sizes and offset by `scale`). */
  datatype Step = Disjoint | MayConflict | DividesByZero | Again(q: Query) | Scaled(scale: int, q: Query)

  /** (c >= 0 && xsize > c) || (c < 0 && ysize + c > 0) */
  predicate Overlap(xs: int, ys: int, c: int) {
    (c >= 0 && xs > c) || (c < 0 && ys + c > 0)
  }

  function Sized(xs: int, ys: int, c: int): Step {
    if xs <= 0 || ys <= 0 || Overlap(xs, ys, c) then MayConflict else Disjoint
  }

  /** C division. */
  function Quot(a: int, b: int): int
    requires b != 0
  {
    if a >= 0 then a / b else -(-a / b)
  }

  /** One call of memrefs_conflict_p up to its recursive call, which is always the last thing it does. */
  function Next(k: Known, q: Query): Step
    requires Acyclic(k)
  {
    var Query(xs, x, ys, y, c) := q;
    if EqualForMemref(k, x, y) then Sized(xs, ys, c)
    else match (x, y)
    case (Plus(x0, x1), Plus(y0, y1)) =>
      if EqualForMemref(k, x1, y1) then Again(Query(xs, x0, ys, y0, c))
      else if EqualForMemref(k, x0, y0) then Again(Query(xs, x1, ys, y1, c))
      else if x1.Const? then
        if y1.Const? then Again(Query(xs, x0, ys, y0, c - x1.v + y1.v)) else Again(Query(xs, x0, ys, y, c - x1.v))
      else if y1.Const? then Again(Query(xs, x, ys, y0, c + y1.v))
      else MayConflict
    case (Plus(x0, x1), _) =>
      if x1.Const? then Again(Query(xs, x0, ys, y, c - x1.v)) else MayConflict
    case (_, Plus(y0, y1)) =>
      if y1.Const? then Again(Query(xs, x, ys, y0, c + y1.v)) else MayConflict
    case (Mult(a, b), Mult(d, e)) =>
      var x1, y1 := Canon(k, b), Canon(k, e);
      if !EqualForMemref(k, x1, y1) then MayConflict
      else
        var x0, y0 := Canon(k, a), Canon(k, d);
        if EqualForMemref(k, x0, y0) then
          (if xs == 0 || ys == 0 || Overlap(xs, ys, c) then MayConflict else Disjoint)
        else if !x1.Const? then MayConflict
        else if x1.v == 0 then DividesByZero
        else Scaled(x1.v, Query(Quot(xs, x1.v), x0, Quot(ys, x1.v), y0, Quot(c, x1.v)))
    case (Const(u), Const(v)) => Sized(xs, ys, c + (v - u))
    case _ => MayConflict
  }

  function Size(k: Known, q: Query): nat
    requires Acyclic(k)
  {
    Weight(k, q.x) + Weight(k, q.y)
  }

  /** A further question is about smaller addresses, in terms of known values: the recursion ends. */
  lemma NextSmaller(k: Known, q: Query)
    requires Acyclic(k)
    ensures Next(k, q).Again? || Next(k, q).Scaled? ==> Size(k, Next(k, q).q) < Size(k, q)
  {
    match (q.x, q.y)
    case (Mult(a, b), Mult(d, e)) =>
      CanonValue(k, a, (r) => 0);
      CanonValue(k, d, (r) => 0);
    case _ =>
  }

  datatype Answer = No | Maybe | Crash

  /** memrefs_conflict_p. Crash stands for the division by a scale of zero. */
  function MemrefsConflict(k: Known, q: Query): Answer
    requires Acyclic(k)
    decreases Size(k, q)
  {
    NextSmaller(k, q);
    match Next(k, q)
    case Disjoint => No
    case MayConflict => Maybe
    case DividesByZero => Crash
    case Again(r) => MemrefsConflict(k, r)
    case Scaled(_, r) => MemrefsConflict(k, r)
  }

  // ---- soundness ----

  /** xs bytes at address 0 and ys bytes at address d do not overlap. */
  predicate Apart(xs: int, ys: int, d: int) {
    d >= xs || d + ys <= 0
  }

  /** The two references do not overlap. */
  ghost predicate Separate(q: Query, env: nat -> int) {
    Apart(q.xs, q.ys, Eval(q.y, env) + q.c - Eval(q.x, env))
  }

  /** Every scale met on the way is positive and divides both sizes and the offset. */
  predicate Scales(k: Known, q: Query)
    requires Acyclic(k)
    decreases Size(k, q)
  {
    NextSmaller(k, q);
    match Next(k, q)
    case Again(r) => Scales(k, r)
    case Scaled(s, r) => s > 0 && q.xs % s == 0 && q.ys % s == 0 && q.c % s == 0 && Scales(k, r)
    case _ => true
  }

  lemma ExactQuot(a: int, s: int)
    requires s > 0 && a % s == 0
    ensures a == s * Quot(a, s) && (Quot(a, s) > 0 <==> a > 0)
  {
    if a < 0 {
      var q := a / s;
      assert a == s * q;
      QuotUnique(-a, s, -q);
    }
  }

  lemma MulAtLeast(s: int, n: int)
    requires s > 0
    ensures n >= 1 ==> s * n >= s
    ensures n <= -1 ==> s * n <= -s
  {
    if n >= 1 { assert s * n == s + s * (n - 1); MulSign(s, n - 1); }
    if n <= -1 { assert s * n == -s + s * (n + 1); MulSign(s, -(n + 1)); }
  }

  lemma MulSign(s: int, n: int)
    requires s > 0 && n >= 0
    ensures s * n >= 0
  {}

  lemma MulMinus(s: int, a: int, b: int)
    ensures s * (a - b) == s * a - s * b
  {}

  lemma QuotUnique(a: int, s: int, q: int)
    requires s > 0 && 0 <= a - s * q < s
    ensures a / s == q
  {
    var d := a / s;
    var r := a % s;
    assert a == s * d + r;
    MulMinus(s, q, d);
    MulAtLeast(s, q - d);
  }

  lemma ScaleApart(s: int, xs: int, ys: int, d: int)
    requires s > 0
    ensures Apart(s * xs, s * ys, s * d) <==> Apart(xs, ys, d)
  {
    ScaleOrder(s, d, xs);
    ScaleOrder(s, 0, d + ys);
    MulMinus(s, d, -ys);
    assert s * (d + ys) == s * d + s * ys;
  }

  lemma ScaleOrder(s: int, a: int, b: int)
    requires s > 0
    ensures a >= b <==> s * a >= s * b
  {
    MulMinus(s, a, b);
    MulAtLeast(s, a - b);
  }

  /** One step: if the answer to the next question is right, so is the answer to this one. */
  lemma NextSound(k: Known, q: Query, env: nat -> int)
    requires Acyclic(k) && Consistent(k, env) && Scales(k, q)
    ensures Next(k, q) == Disjoint ==> q.xs > 0 && q.ys > 0 && Separate(q, env)
    ensures Next(k, q).Again? ==> Next(k, q).q.xs == q.xs && Next(k, q).q.ys == q.ys
    ensures Next(k, q).Again? && Separate(Next(k, q).q, env) ==> Separate(q, env)
    ensures Next(k, q).Scaled? ==> (Next(k, q).q.xs > 0 <==> q.xs > 0) && (Next(k, q).q.ys > 0 <==> q.ys > 0)
    ensures Next(k, q).Scaled? && Separate(Next(k, q).q, env) ==> Separate(q, env)
  {
    var Query(xs, x, ys, y, c) := q;
    if EqualForMemref(k, x, y) {
      EqualValue(k, x, y, env);
    } else {
      match (x, y)
      case (Plus(x0, x1), Plus(y0, y1)) =>
        if EqualForMemref(k, x1, y1) { EqualValue(k, x1, y1, env); }
        else if EqualForMemref(k, x0, y0) { EqualValue(k, x0, y0, env); }
      case (Mult(a, b), Mult(d, e)) => ProductSound(k, q, env);
      case _ =>
    }
  }

  lemma ProductSound(k: Known, q: Query, env: nat -> int)
    requires Acyclic(k) && Consistent(k, env) && Scales(k, q)
    requires q.x.Mult? && q.y.Mult? && !EqualForMemref(k, q.x, q.y)
    ensures Next(k, q) != Disjoint && !Next(k, q).Again?
    ensures Next(k, q).Scaled? ==> (Next(k, q).q.xs > 0 <==> q.xs > 0) && (Next(k, q).q.ys > 0 <==> q.ys > 0)
    ensures Next(k, q).Scaled? && Separate(Next(k, q).q, env) ==> Separate(q, env)
  {
    ProductStep(k, q);
    if Next(k, q).Scaled? {
      var Scaled(s, r) := Next(k, q);
      ProductValue(k, q, env);
      hide Next, Scales, Canon, EqualForMemref, Eval, Quot;
      ScaledSound(s, q.xs, q.ys, q.c, Eval(r.x, env), Eval(r.y, env));
    }
  }

  /** The equal products are dealt with before. */
  lemma ProductStep(k: Known, q: Query)
    requires Acyclic(k) && q.x.Mult? && q.y.Mult? && !EqualForMemref(k, q.x, q.y)
    ensures Next(k, q) != Disjoint && !Next(k, q).Again?
  {
    var p, r := Canon(k, q.x.x0), Canon(k, q.y.x0);
    var t, u := Canon(k, q.x.x1), Canon(k, q.y.x1);
    assert !(EqualForMemref(k, p, r) && EqualForMemref(k, t, u));
  }

  lemma ProductValue(k: Known, q: Query, env: nat -> int)
    requires Acyclic(k) && Consistent(k, env) && Scales(k, q) && q.x.Mult? && q.y.Mult? && Next(k, q).Scaled?
    ensures var Scaled(s, r) := Next(k, q);
      && s > 0 && q.xs % s == 0 && q.ys % s == 0 && q.c % s == 0
      && r.xs == Quot(q.xs, s) && r.ys == Quot(q.ys, s) && r.c == Quot(q.c, s)
      && Eval(q.x, env) == Eval(r.x, env) * s && Eval(q.y, env) == Eval(r.y, env) * s
  {
    hide Quot;
    CanonValue(k, q.x.x0, env);
    CanonValue(k, q.x.x1, env);
    CanonValue(k, q.y.x0, env);
    CanonValue(k, q.y.x1, env);
    EqualValue(k, Canon(k, q.x.x1), Canon(k, q.y.x1), env);
  }

  lemma ScaledSound(s: int, xs: int, ys: int, c: int, x0: int, y0: int)
    requires s > 0 && xs % s == 0 && ys % s == 0 && c % s == 0
    ensures (Quot(xs, s) > 0 <==> xs > 0) && (Quot(ys, s) > 0 <==> ys > 0)
    ensures Apart(Quot(xs, s), Quot(ys, s), y0 + Quot(c, s) - x0) ==> Apart(xs, ys, y0 * s + c - x0 * s)
  {
    ExactQuot(xs, s);
    ExactQuot(ys, s);
    ExactQuot(c, s);
    hide Quot, Apart;
    var d := y0 + Quot(c, s) - x0;
    ScaleApart(s, Quot(xs, s), Quot(ys, s), d);
    MulMinus(s, y0 + Quot(c, s), x0);
    MulMinus(s, y0, -Quot(c, s));
  }

  /** The answer "no" is right under every valuation that agrees with the known values, if all scales divide what they
      are to divide. In particular it is never given when a size is not positive. */
  lemma {:induction false} ConflictSound(k: Known, q: Query, env: nat -> int)
    requires Acyclic(k) && Consistent(k, env) && Scales(k, q)
    requires MemrefsConflict(k, q) == No
    ensures q.xs > 0 && q.ys > 0 && Separate(q, env)
    decreases Size(k, q)
  {
    NextSmaller(k, q);
    NextSound(k, q, env);
    match Next(k, q)
    case Again(r) => ConflictSound(k, r, env);
    case Scaled(_, r) => ConflictSound(k, r, env);
    case _ =>
  }

  // ---- sizes that are not positive ----

  /** The product of the scales on the way to a comparison of ranges; 0 if it does not come to one. */
  function TotalScale(k: Known, q: Query): int
    requires Acyclic(k)
    decreases Size(k, q)
  {
    NextSmaller(k, q);
    match Next(k, q)
    case Again(r) => TotalScale(k, r)
    case Scaled(s, r) => s * TotalScale(k, r)
    case _ => if EqualForMemref(k, q.x, q.y) || (q.x.Const? && q.y.Const?) then 1 else 0
  }

  function Gap(x: Expr, y: Expr): int {
    if x.Const? && y.Const? then y.v - x.v else 0
  }

  /** The offset in that comparison. */
  function LastOffset(k: Known, q: Query): int
    requires Acyclic(k)
    decreases Size(k, q)
  {
    NextSmaller(k, q);
    match Next(k, q)
    case Again(r) => LastOffset(k, r)
    case Scaled(_, r) => LastOffset(k, r)
    case _ => q.c + Gap(q.x, q.y)
  }

  /** The way to the answer does not depend on sizes and offset. */
  lemma {:induction false} SameScale(k: Known, p: Query, q: Query)
    requires Acyclic(k) && p.x == q.x && p.y == q.y
    ensures TotalScale(k, p) == TotalScale(k, q)
    decreases Size(k, p)
  {
    NextSmaller(k, p);
    if p.x.Mult? && p.y.Mult? && !EqualForMemref(k, p.x, p.y) {
      ProductStep(k, p);
      ProductStep(k, q);
    }
    match Next(k, p)
    case Again(r) => SameScale(k, r, Next(k, q).q);
    case Scaled(_, r) => SameScale(k, r, Next(k, q).q);
    case _ =>
  }

  lemma DivByMinus(a: int, b: int)
    requires a >= 0 && b > 0
    ensures a / -b == -(a / b)
  {
    var q := -(a / -b);
    assert a == -b * -q + a % -b;
    assert -b * -q == b * q;
    QuotUnique(a, b, q);
  }

  lemma QuotMinus(a: int, b: int)
    requires b != 0
    ensures Quot(-a, b) == -Quot(a, b) && Quot(a, -b) == -Quot(a, b)
  {
    DivByMinus(if a >= 0 then a else -a, if b > 0 then b else -b);
  }

  lemma DivDiv(a: int, s: int, t: int)
    requires a >= 0 && s > 0 && t > 0
    ensures s * t > 0 && a / s / t == a / (s * t)
  {
    var p, q := a / s, a / s / t;
    var rest := p % t;
    assert a == s * p + a % s && p == t * q + rest;
    MulMinus(s, t * q, -rest);
    assert s * (t * q) == (s * t) * q;
    MulAtLeast(s, t);
    MulMinus(s, t - 1, rest);
    MulSign(s, t - 1 - rest);
    MulSign(s, rest);
    MulMinus(s, t, 1);
    QuotUnique(a, s * t, q);
  }

  /** Dividing by one scale after another is dividing by their product. */
  lemma {:induction false} QuotQuot(a: int, s: int, t: int)
    requires s != 0 && t != 0
    ensures s * t != 0 && Quot(Quot(a, s), t) == Quot(a, s * t)
    decreases a < 0, s < 0, t < 0
  {
    hide Quot;
    if a < 0 {
      QuotQuot(-a, s, t);
      QuotMinus(a, s);
      QuotMinus(Quot(a, s), t);
      QuotMinus(a, s * t);
    } else if s < 0 {
      QuotQuot(a, -s, t);
      QuotMinus(a, s);
      QuotMinus(Quot(a, s), t);
      MinusMul(a, s, t);
    } else if t < 0 {
      QuotQuot(a, s, -t);
      QuotMinus(Quot(a, s), t);
      MinusMul(a, t, s);
      assert s * t == t * s && s * -t == -t * s;
    } else {
      DivDiv(a, s, t);
      QuotPlus(a, s);
      QuotPlus(a / s, t);
      QuotPlus(a, s * t);
    }
  }

  lemma MinusMul(a: int, s: int, t: int)
    requires -s * t != 0
    ensures s * t != 0 && Quot(a, -s * t) == -Quot(a, s * t)
  {
    assert -s * t == -(s * t);
    QuotMinus(a, s * t);
  }

  lemma QuotPlus(a: int, s: int)
    requires a >= 0 && s > 0
    ensures Quot(a, s) == a / s && a / s >= 0
  {}

  /** A quotient is positive if and only if dividend and divisor have one sign and the dividend is large enough. */
  lemma QuotPositive(a: int, s: int)
    requires s != 0
    ensures Quot(a, s) > 0 <==> if s > 0 then a >= s else a <= s
  {
    if s > 0 {
      QuotPositiveBy(a, s);
    } else {
      hide Quot;
      QuotPositiveBy(-a, -s);
      QuotMinus(a, s);
      QuotMinus(-a, s);
    }
  }

  lemma QuotPositiveBy(a: int, s: int)
    requires s > 0
    ensures Quot(a, s) > 0 <==> a >= s
  {
    if a >= s {
      MulAtLeast(s, a / s);
    } else if a >= 0 {
      QuotUnique(a, s, 0);
    }
  }

  /** memrefs_conflict_p compares ranges whose sizes are divided by the product of all scales. */
  lemma {:induction false} ConflictMeaning(k: Known, q: Query)
    requires Acyclic(k)
    ensures MemrefsConflict(k, q) == No <==>
      var t := TotalScale(k, q);
      t != 0 && Quot(q.xs, t) > 0 && Quot(q.ys, t) > 0 && !Overlap(Quot(q.xs, t), Quot(q.ys, t), LastOffset(k, q))
    decreases Size(k, q)
  {
    NextSmaller(k, q);
    if Next(k, q).Again? {
      SameSizes(k, q);
      ConflictMeaning(k, Next(k, q).q);
    } else if Next(k, q).Scaled? {
      var Scaled(s, r) := Next(k, q);
      ScaledSizes(k, q);
      ConflictMeaning(k, r);
      var t := TotalScale(k, r);
      if t != 0 {
        QuotQuot(q.xs, s, t);
        QuotQuot(q.ys, s, t);
      }
    } else {
      if q.x.Mult? && q.y.Mult? && !EqualForMemref(k, q.x, q.y) { ProductStep(k, q); }
      QuotOne(q.xs);
      QuotOne(q.ys);
    }
  }

  lemma QuotOne(a: int)
    ensures Quot(a, 1) == a
  {}

  lemma SameSizes(k: Known, q: Query)
    requires Acyclic(k) && Next(k, q).Again?
    ensures Next(k, q).q.xs == q.xs && Next(k, q).q.ys == q.ys
  {
    if q.x.Mult? && q.y.Mult? { ProductStep(k, q); }
  }

  lemma ScaledSizes(k: Known, q: Query)
    requires Acyclic(k) && Next(k, q).Scaled?
    ensures var Scaled(s, r) := Next(k, q);
      s != 0 && r.xs == Quot(q.xs, s) && r.ys == Quot(q.ys, s) && r.c == Quot(q.c, s)
  {}

  /** Every last offset comes from some offset. */
  lemma {:induction false} OffsetReached(k: Known, q: Query, goal: int) returns (c: int)
    requires Acyclic(k) && TotalScale(k, q) != 0
    ensures LastOffset(k, q.(c := c)) == goal
    decreases Size(k, q)
  {
    NextSmaller(k, q);
    if Next(k, q).Again? {
      var r := Next(k, q).q;
      c := OffsetReached(k, r, goal);
      c := c - (r.c - q.c);
      if q.x.Mult? && q.y.Mult? { ProductStep(k, q); }
      assert Next(k, q.(c := c)) == Again(r.(c := c + (r.c - q.c)));
    } else if Next(k, q).Scaled? {
      var Scaled(s, r) := Next(k, q);
      c := OffsetReached(k, r, goal);
      QuotOfMultiple(s, c);
      assert Next(k, q.(c := s * c)) == Scaled(s, r.(c := c));
      c := s * c;
    } else {
      c := goal - Gap(q.x, q.y);
    }
  }

  lemma {:induction false} QuotOfMultiple(s: int, n: int)
    requires s != 0
    ensures Quot(s * n, s) == n
    decreases n < 0, s < 0
  {
    if n < 0 {
      QuotOfMultiple(s, -n);
      assert s * -n == -(s * n);
      QuotMinus(s * n, s);
    } else if s < 0 {
      QuotOfMultiple(-s, n);
      assert -s * n == -(s * n);
      QuotMinus(s * n, s);
      QuotMinus(-(s * n), s);
    } else {
      MulSign(s, n);
      QuotUnique(s * n, s, n);
    }
  }

  /** Some offset makes the answer "no" if and only if both sizes have the sign of the total scale and are no smaller. */
  lemma SizesDecide(k: Known, xs: int, x: Expr, ys: int, y: Expr)
    requires Acyclic(k)
    ensures var t := TotalScale(k, Query(xs, x, ys, y, 0));
      (exists c: int :: MemrefsConflict(k, Query(xs, x, ys, y, c)) == No)
      <==> (t > 0 && xs >= t && ys >= t) || (t < 0 && xs <= t && ys <= t)
  {
    var q := Query(xs, x, ys, y, 0);
    var t := TotalScale(k, q);
    forall c: int ensures MemrefsConflict(k, q.(c := c)) == No ==> t != 0 && Quot(xs, t) > 0 && Quot(ys, t) > 0 {
      SameScale(k, q.(c := c), q);
      ConflictMeaning(k, q.(c := c));
    }
    if t != 0 {
      QuotPositive(xs, t);
      QuotPositive(ys, t);
      var c := OffsetReached(k, q, Quot(xs, t));
      SameScale(k, q.(c := c), q);
      ConflictMeaning(k, q.(c := c));
      assert q.(c := c) == Query(xs, x, ys, y, c);
    }
  }

  /** The answer is never "no" when a size is not positive, if and only if the product of all scales is not negative. */
  lemma UnknownSizeConflicts(k: Known, x: Expr, y: Expr)
    requires Acyclic(k)
    ensures (forall xs: int, ys: int, c: int :: xs <= 0 || ys <= 0 ==> MemrefsConflict(k, Query(xs, x, ys, y, c)) != No)
      <==> TotalScale(k, Query(1, x, 1, y, 0)) >= 0
  {
    var t := TotalScale(k, Query(1, x, 1, y, 0));
    forall xs: int, ys: int, c: int | MemrefsConflict(k, Query(xs, x, ys, y, c)) == No
      ensures (t > 0 && xs >= t && ys >= t) || (t < 0 && xs <= t && ys <= t)
    {
      SameScale(k, Query(xs, x, ys, y, 0), Query(1, x, 1, y, 0));
      SizesDecide(k, xs, x, ys, y);
    }
    if t < 0 {
      SameScale(k, Query(t, x, t, y, 0), Query(1, x, 1, y, 0));
      SizesDecide(k, t, x, t, y);
    }
  }

  /** Every scale met on the way is positive. */
  predicate PositiveScales(k: Known, q: Query)
    requires Acyclic(k)
    decreases Size(k, q)
  {
    NextSmaller(k, q);
    match Next(k, q)
    case Again(r) => PositiveScales(k, r)
    case Scaled(s, r) => s > 0 && PositiveScales(k, r)
    case _ => true
  }

  lemma {:induction false} PositiveTotal(k: Known, q: Query)
    requires Acyclic(k) && PositiveScales(k, q)
    ensures TotalScale(k, q) >= 0
    decreases Size(k, q)
  {
    NextSmaller(k, q);
    match Next(k, q)
    case Again(r) => PositiveTotal(k, r);
    case Scaled(s, r) =>
      PositiveTotal(k, r);
      MulSign(s, TotalScale(k, r));
    case _ =>
  }

  /** So with positive scales only, as they occur in address arithmetic, the answer is never "no". */
  lemma PositiveScalesConflict(k: Known, q: Query)
    requires Acyclic(k) && PositiveScales(k, q) && (q.xs <= 0 || q.ys <= 0)
    ensures MemrefsConflict(k, q) != No
  {
    PositiveTotal(k, q);
    SameScale(k, q, Query(1, q.x, 1, q.y, 0));
    UnknownSizeConflicts(k, q.x, q.y);
    assert q == Query(q.xs, q.x, q.ys, q.y, q.c);
  }

  /** One register scaled by s against the same register plus n scaled by s. */
  lemma ScaledRegisters(s: int, n: int)
    ensures var k, x, y := Known(map[], map[]), Mult(Reg(0), Const(s)), Mult(Plus(Reg(0), Const(n)), Const(s));
      (forall xs: int, ys: int, c: int :: xs <= 0 || ys <= 0 ==> MemrefsConflict(k, Query(xs, x, ys, y, c)) != No)
      <==> s >= 0
  {
    var k, x, y := Known(map[], map[]), Mult(Reg(0), Const(s)), Mult(Plus(Reg(0), Const(n)), Const(s));
    UnknownSizeConflicts(k, x, y);
    var q := Query(1, x, 1, y, 0);
    var r := Plus(Reg(0), Const(n));
    assert Canon(k, Const(s)) == Const(s) && Canon(k, Reg(0)) == Reg(0) && Canon(k, r) == r;
    if s != 0 {
      assert !EqualForMemref(k, Reg(0), r) && !EqualForMemref(k, Reg(0), Const(s)) && EqualForMemref(k, Const(s), Const(s));
      var p := Query(Quot(1, s), Reg(0), Quot(1, s), r, Quot(0, s));
      assert Next(k, q) == Scaled(s, p);
      var o := Query(p.xs, Reg(0), p.ys, Reg(0), p.c + n);
      assert Next(k, p) == Again(o);
      assert TotalScale(k, o) == 1;
      assert TotalScale(k, p) == 1;
      assert TotalScale(k, q) == s;
    }
  }

  // ---- when "no" is answered ----

  /** The sums in x outside products. */
  function Sums(x: Expr): nat {
    match x
    case Plus(a, b) => 1 + Sums(a) + Sums(b)
    case _ => 0
  }

  lemma {:induction false} EqualSums(k: Known, x: Expr, y: Expr)
    requires Acyclic(k) && EqualForMemref(k, x, y)
    ensures Sums(x) == Sums(y)
    decreases x
  {
    match (x, y)
    case (Plus(a, b), Plus(c, d)) =>
      if EqualForMemref(k, a, c) && EqualForMemref(k, b, d) {
        EqualSums(k, a, c);
        EqualSums(k, b, d);
      } else {
        EqualSums(k, a, d);
        EqualSums(k, b, c);
      }
    case _ =>
  }

  /** A sum is found equal to none of its operands. */
  lemma NotItsOperand(k: Known, a: Expr, b: Expr)
    requires Acyclic(k)
    ensures !EqualForMemref(k, a, Plus(a, b)) && !EqualForMemref(k, Plus(a, b), a)
  {
    if EqualForMemref(k, a, Plus(a, b)) { EqualSums(k, a, Plus(a, b)); }
    if EqualForMemref(k, Plus(a, b), a) { EqualSums(k, Plus(a, b), a); }
  }

  /** The ranges of two sizes at a distance of d are answered "no" rightly. */
  predicate KnownApart(xs: int, ys: int, d: int) {
    xs > 0 && ys > 0 && Apart(xs, ys, d)
  }

  lemma EqualDecided(k: Known, xs: int, x: Expr, ys: int, y: Expr, c: int)
    requires Acyclic(k) && EqualForMemref(k, x, y)
    ensures MemrefsConflict(k, Query(xs, x, ys, y, c)) == if KnownApart(xs, ys, c) then No else Maybe
  {}

  lemma ConstantsDecided(k: Known, xs: int, u: int, ys: int, v: int, c: int)
    requires Acyclic(k)
    ensures MemrefsConflict(k, Query(xs, Const(u), ys, Const(v), c)) == if KnownApart(xs, ys, v + c - u) then No else Maybe
  {}

  /** Two sums with an operand in common, at the same place, conflict exactly if their other operands do. */
  lemma SumsReduced(k: Known, xs: int, x0: Expr, x1: Expr, ys: int, y0: Expr, y1: Expr, c: int)
    requires Acyclic(k)
    ensures EqualForMemref(k, x1, y1) ==>
      MemrefsConflict(k, Query(xs, Plus(x0, x1), ys, Plus(y0, y1), c)) == MemrefsConflict(k, Query(xs, x0, ys, y0, c))
    ensures EqualForMemref(k, x0, y0) ==>
      MemrefsConflict(k, Query(xs, Plus(x0, x1), ys, Plus(y0, y1), c)) == MemrefsConflict(k, Query(xs, x1, ys, y1, c))
  {
    var x, y := Plus(x0, x1), Plus(y0, y1);
    if EqualForMemref(k, x1, y1) || EqualForMemref(k, x0, y0) {
      if EqualForMemref(k, x, y) {
        BothEqual(k, x0, x1, y0, y1);
        EqualDecided(k, xs, x, ys, y, c);
        EqualDecided(k, xs, x0, ys, y0, c);
        EqualDecided(k, xs, x1, ys, y1, c);
      } else {
        assert EqualForMemref(k, x1, y1) ==> Next(k, Query(xs, x, ys, y, c)) == Again(Query(xs, x0, ys, y0, c));
        assert !EqualForMemref(k, x1, y1) ==> Next(k, Query(xs, x, ys, y, c)) == Again(Query(xs, x1, ys, y1, c));
      }
    }
  }

  lemma BothEqual(k: Known, x0: Expr, x1: Expr, y0: Expr, y1: Expr)
    requires Acyclic(k) && EqualForMemref(k, Plus(x0, x1), Plus(y0, y1))
    requires EqualForMemref(k, x1, y1) || EqualForMemref(k, x0, y0)
    ensures EqualForMemref(k, x1, y1) && EqualForMemref(k, x0, y0)
  {
    if !(EqualForMemref(k, x0, y0) && EqualForMemref(k, x1, y1)) {
      assert EqualForMemref(k, x0, y1) && EqualForMemref(k, x1, y0);
      if EqualForMemref(k, x1, y1) {
        EqualSymmetric(k, x1, y1);
        EqualTransitive(k, x0, y1, x1);
        EqualTransitive(k, x0, x1, y0);
      } else {
        EqualSymmetric(k, x0, y0);
        EqualTransitive(k, x1, y0, x0);
        EqualTransitive(k, x1, x0, y1);
      }
    }
  }

  /** The second address is the first one plus a constant. */
  lemma {:induction false} OffsetDecided(k: Known, xs: int, b: Expr, ys: int, n: int, c: int)
    requires Acyclic(k)
    ensures MemrefsConflict(k, Query(xs, b, ys, Plus(b, Const(n)), c)) == if KnownApart(xs, ys, n + c) then No else Maybe
    decreases b
  {
    NotItsOperand(k, b, Const(n));
    EqualSelf(k, b);
    var q := Query(xs, b, ys, Plus(b, Const(n)), c);
    if b.Plus? { NotItsOperand(k, b.x0, b.x1); }
    if b.Plus? && b.x1.Const? {
      var b0, m := b.x0, b.x1.v;
      OffsetDecided(k, xs, b0, ys, m, c);
      OffsetDecided(k, xs, b0, ys, m, c - m + n);
      assert Next(k, q) == Again(Query(xs, b0, ys, b, if m == n then c else c - m + n));
    } else {
      EqualDecided(k, xs, b, ys, b, c + n);
      assert Next(k, q) == Again(Query(xs, b, ys, b, c + n));
    }
  }

  /** The first address is the second one plus a constant. */
  lemma {:induction false} OffsetBackDecided(k: Known, xs: int, b: Expr, ys: int, n: int, c: int)
    requires Acyclic(k)
    ensures MemrefsConflict(k, Query(xs, Plus(b, Const(n)), ys, b, c)) == if KnownApart(xs, ys, c - n) then No else Maybe
    decreases b
  {
    NotItsOperand(k, b, Const(n));
    EqualSelf(k, b);
    var q := Query(xs, Plus(b, Const(n)), ys, b, c);
    if b.Plus? { NotItsOperand(k, b.x0, b.x1); }
    if b.Plus? && b.x1.Const? {
      var b0, m := b.x0, b.x1.v;
      OffsetBackDecided(k, xs, b0, ys, m, c);
      OffsetBackDecided(k, xs, b0, ys, m, c - n + m);
      assert Next(k, q) == Again(Query(xs, b, ys, b0, if m == n then c else c - n + m));
    } else {
      EqualDecided(k, xs, b, ys, b, c - n);
      assert Next(k, q) == Again(Query(xs, b, ys, b, c - n));
    }
  }

  /** Two places in one object, at offsets i and j from a common base, are told apart whenever they are apart. */
  lemma SameBaseDecided(k: Known, xs: int, b: Expr, i: int, ys: int, j: int, c: int)
    requires Acyclic(k)
    ensures MemrefsConflict(k, Query(xs, Plus(b, Const(i)), ys, Plus(b, Const(j)), c)) == No <==> KnownApart(xs, ys, j + c - i)
  {
    EqualSelf(k, b);
    SumsReduced(k, xs, b, Const(i), ys, b, Const(j), c);
    ConstantsDecided(k, xs, i, ys, j, c);
  }

  /** Elements of s bytes, with numbers at a base b and n later: they are told apart exactly if the numbers are, with sizes
      and offset counted in elements. */
  lemma ElementsDecided(k: Known, xs: int, b: Expr, ys: int, n: int, s: int, c: int)
    requires Acyclic(k) && s != 0 && Canon(k, Plus(b, Const(n))) == Plus(Canon(k, b), Const(n))
    ensures MemrefsConflict(k, Query(xs, Mult(b, Const(s)), ys, Mult(Plus(b, Const(n)), Const(s)), c)) == No
      <==> KnownApart(Quot(xs, s), Quot(ys, s), n + Quot(c, s))
  {
    var p, d := Canon(k, b), Plus(Canon(k, b), Const(n));
    var x, y := Mult(b, Const(s)), Mult(Plus(b, Const(n)), Const(s));
    assert Canon(k, Const(s)) == Const(s);
    NotItsOperand(k, p, Const(n));
    assert !EqualForMemref(k, Const(s), d) && EqualForMemref(k, Const(s), Const(s));
    assert !EqualForMemref(k, x, y);
    var r := Query(Quot(xs, s), p, Quot(ys, s), d, Quot(c, s));
    assert Next(k, Query(xs, x, ys, y, c)) == Scaled(s, r);
    OffsetDecided(k, r.xs, p, r.ys, n, r.c);
  }

  // ---- sizes that are not divided ----

  /** The ranges are d units of s bytes, plus c, apart: if the divided question is answered "no", so may this one be. */
  predicate RightAt(s: int, xs: int, ys: int, c: int, d: int)
    requires s != 0
  {
    Sized(Quot(xs, s), Quot(ys, s), d + Quot(c, s)) == Disjoint ==> xs > 0 && ys > 0 && Apart(xs, ys, s * d + c)
  }

  /** Dividing is right for all distances if and only if the answer "no" is never given or the scale is positive and
      divides sizes and offset. */
  lemma ScalingExact(s: int, xs: int, ys: int, c: int)
    requires s != 0
    ensures (forall d: int :: RightAt(s, xs, ys, c, d))
      <==> Quot(xs, s) <= 0 || Quot(ys, s) <= 0 || (s > 0 && xs % s == 0 && ys % s == 0 && c % s == 0)
  {
    hide Quot;
    var p, q, r := Quot(xs, s), Quot(ys, s), Quot(c, s);
    if p > 0 && q > 0 {
      QuotPositive(xs, s);
      QuotPositive(ys, s);
      if s < 0 {
        assert !RightAt(s, xs, ys, c, p - r);
      } else {
        PositiveScaling(s, xs, ys, c);
      }
    }
  }

  lemma PositiveScaling(s: int, xs: int, ys: int, c: int)
    requires s > 0 && Quot(xs, s) > 0 && Quot(ys, s) > 0
    ensures (forall d: int :: RightAt(s, xs, ys, c, d)) <==> xs % s == 0 && ys % s == 0 && c % s == 0
  {
    var p, q, r := Quot(xs, s), Quot(ys, s), Quot(c, s);
    QuotRest(xs, s);
    QuotRest(ys, s);
    QuotRest(c, s);
    MulAtLeast(s, p);
    MulAtLeast(s, q);
    hide Quot;
    if xs == s * p && ys == s * q && c == s * r {
      forall d: int ensures RightAt(s, xs, ys, c, d) {
        if Sized(p, q, d + r) == Disjoint { ExactDistance(s, p, q, r, d); }
      }
    } else {
      var d := ClosestDistance(s, xs, ys, c, p, q, r);
      assert !RightAt(s, xs, ys, c, d);
    }
  }

  lemma ExactDistance(s: int, p: int, q: int, r: int, d: int)
    requires s > 0 && Sized(p, q, d + r) == Disjoint
    ensures Apart(s * p, s * q, s * d + s * r)
  {
    ScaleApart(s, p, q, d + r);
    MulMinus(s, d, -r);
  }

  /** One of the two closest distances that are apart after the division is not apart before. */
  lemma ClosestDistance(s: int, xs: int, ys: int, c: int, p: int, q: int, r: int) returns (d: int)
    requires s > 0 && p > 0 && q > 0
    requires s <= s * p <= xs && s <= s * q <= ys && -s < c - s * r < s
    requires !(xs == s * p && ys == s * q && c == s * r)
    ensures Sized(p, q, d + r) == Disjoint && !Apart(xs, ys, s * d + c)
  {
    var rest := c - s * r;
    MulMinus(s, p, r);
    MulMinus(s, -q, r);
    assert s * (p - r) + c == s * p + rest && s * (-q - r) + c == rest - s * q;
    RestsVanish(s, xs, ys, s * p, s * q, rest);
    d := if Apart(xs, ys, s * p + rest) then -q - r else p - r;
  }

  lemma QuotRest(a: int, s: int)
    requires s > 0
    ensures a >= 0 ==> 0 <= a - s * Quot(a, s) < s
    ensures a < 0 ==> -s < a - s * Quot(a, s) <= 0
    ensures a % s == 0 <==> a == s * Quot(a, s)
  {
    if a % s == 0 { ExactQuot(a, s); }
    if a == s * Quot(a, s) { ModOfMultiple(s, Quot(a, s)); }
  }

  lemma ModOfMultiple(s: int, q: int)
    requires s > 0
    ensures (s * q) % s == 0
  {
    QuotUnique(s * q, s, q);
  }

  /** p and q are the sizes without their rests. */
  lemma RestsVanish(s: int, xs: int, ys: int, p: int, q: int, rest: int)
    requires 0 < s <= p <= xs && s <= q <= ys && -s < rest < s && !(xs == p && ys == q && rest == 0)
    ensures !Apart(xs, ys, p + rest) || !Apart(xs, ys, rest - q)
  {}

  // ---- what goes wrong otherwise ----

  /** A scale that does not divide the sizes: 12 bytes at 8 * r and 12 bytes at 8 * (r + 1) do overlap. */
  lemma SizesNotDivided()
    ensures var k := Known(map[], map[]);
            var q := Query(12, Mult(Reg(0), Const(8)), 12, Mult(Plus(Reg(0), Const(1)), Const(8)), 0);
      Acyclic(k) && MemrefsConflict(k, q) == No && forall env: nat -> int :: !Separate(q, env)
  {
    var k := Known(map[], map[]);
    var x, y := Reg(0), Plus(Reg(0), Const(1));
    var q := Query(12, Mult(x, Const(8)), 12, Mult(y, Const(8)), 0);
    assert Canon(k, Const(8)) == Const(8) && Canon(k, x) == x && Canon(k, y) == y;
    assert Next(k, q) == Scaled(8, Query(1, x, 1, y, 0));
    assert Next(k, Query(1, x, 1, y, 0)) == Again(Query(1, x, 1, x, 1));
    assert Next(k, Query(1, x, 1, x, 1)) == Disjoint;
    forall env: nat -> int ensures !Separate(q, env) {
      assert Eval(q.x, env) == Eval(x, env) * 8 && Eval(q.y, env) == Eval(y, env) * 8;
    }
  }

  /** A negative scale turns negative sizes, which should make everything conflict, into positive ones. A size of -1 is
      what memrefs_conflict_p passes on for an address under AND. */
  lemma NegativeScale()
    ensures var k := Known(map[], map[]);
            var q := Query(-1, Mult(Reg(0), Const(-1)), -1, Mult(Plus(Reg(0), Const(5)), Const(-1)), 0);
      Acyclic(k) && MemrefsConflict(k, q) == No
  {
    var k := Known(map[], map[]);
    var x, y := Reg(0), Plus(Reg(0), Const(5));
    var q := Query(-1, Mult(x, Const(-1)), -1, Mult(y, Const(-1)), 0);
    assert Canon(k, Const(-1)) == Const(-1) && Canon(k, x) == x && Canon(k, y) == y;
    assert Next(k, q) == Scaled(-1, Query(1, x, 1, y, 0));
    assert Next(k, Query(1, x, 1, y, 0)) == Again(Query(1, x, 1, x, 5));
    assert Next(k, Query(1, x, 1, x, 5)) == Disjoint;
  }
}
