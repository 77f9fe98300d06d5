/** expand_powi_1 and expand_powi of builtins.c, and the sequence of products they emit. */
module PowerExpansion {
  import opened PowerTable
  import opened Powers

  // ---- emitted products ----

  type Reg = nat

  /** No register: a null entry of the cache. */
  const NONE: Reg := 0

  /** target = op0 * op1, one call of expand_mult. */
  datatype Insn = Product(target: Reg, op0: Reg, op1: Reg)

  /** The exponent each register holds after the products, when x holds the first power. */
  function Exponents(x: Reg, insns: seq<Insn>): map<Reg, nat> {
    if insns == [] then map[x := 1]
    else
      var e := Exponents(x, insns[..|insns| - 1]);
      var i := insns[|insns| - 1];
      if i.op0 in e && i.op1 in e then e[i.target := e[i.op0] + e[i.op1]] else e
  }

  /** Every operand is written before it is read, and no register is written twice. */
  predicate DefinedBeforeUse(x: Reg, insns: seq<Insn>) {
    insns != [] ==>
      var before := insns[..|insns| - 1];
      var i := insns[|insns| - 1];
      DefinedBeforeUse(x, before)
      && i.op0 in Exponents(x, before) && i.op1 in Exponents(x, before) && i.target !in Exponents(x, before)
  }

  // ---- what the products compute ----

  ghost predicate Associative<T(!new)>(mul: (T, T) -> T) {
    forall a, b, c :: mul(mul(a, b), c) == mul(a, mul(b, c))
  }

  function Power<T>(mul: (T, T) -> T, x: T, n: nat): T
    requires n >= 1
  {
    if n == 1 then x else mul(x, Power(mul, x, n - 1))
  }

  lemma {:induction false} PowerSum<T(!new)>(mul: (T, T) -> T, x: T, m: nat, n: nat)
    requires Associative(mul) && m >= 1 && n >= 1
    ensures mul(Power(mul, x, m), Power(mul, x, n)) == Power(mul, x, m + n)
  {
    if m > 1 {
      PowerSum(mul, x, m - 1, n);
      assert mul(mul(x, Power(mul, x, m - 1)), Power(mul, x, n)) == mul(x, mul(Power(mul, x, m - 1), Power(mul, x, n)));
    }
  }

  /** The values of the registers when the products are carried out in order. */
  function Values<T>(mul: (T, T) -> T, x: Reg, v: T, insns: seq<Insn>): map<Reg, T> {
    if insns == [] then map[x := v]
    else
      var e := Values(mul, x, v, insns[..|insns| - 1]);
      var i := insns[|insns| - 1];
      if i.op0 in e && i.op1 in e then e[i.target := mul(e[i.op0], e[i.op1])] else e
  }

  /** Whatever the product is, as long as it is associative, a register holds x to its exponent. */
  lemma {:induction false} ValuesArePowers<T(!new)>(mul: (T, T) -> T, x: Reg, v: T, insns: seq<Insn>)
    requires Associative(mul)
    ensures Values(mul, x, v, insns).Keys == Exponents(x, insns).Keys
    ensures forall r :: r in Exponents(x, insns) ==>
      Exponents(x, insns)[r] >= 1 && Values(mul, x, v, insns)[r] == Power(mul, v, Exponents(x, insns)[r])
  {
    if insns != [] {
      var before := insns[..|insns| - 1];
      var i := insns[|insns| - 1];
      ValuesArePowers(mul, x, v, before);
      var e := Exponents(x, before);
      if i.op0 in e && i.op1 in e { PowerSum(mul, v, e[i.op0], e[i.op1]); }
    }
  }

  // ---- how many products there are ----

  /** The products emitted outside the table. */
  function Windows(n: nat): nat {
    if n < POWI_TABLE_SIZE then 0
    else if n % 2 == 1 then 1 + Windows(n - n % WINDOW)
    else 1 + Windows(n / 2)
  }

  /** The exponents taken from the table. */
  function Looked(n: nat): (c: set<nat>)
    requires n >= 1
    ensures 1 in c
    decreases n
  {
    if n < POWI_TABLE_SIZE then Chain(n)
    else if n % 2 == 1 then OddDigit(n); Looked(n - n % WINDOW) + Chain(n % WINDOW)
    else Looked(n / 2)
  }

  /** Shifting a whole window out at once costs what halving three times does, in the table or not. */
  lemma Eightfold(v: nat, d: set<nat>)
    requires v >= 32 && forall k :: k in d ==> k < WINDOW
    ensures Windows(8 * v) + |Looked(8 * v) + d| == 3 + Windows(v) + |Looked(v) + d|
  {
    hide Chain;
    Doubled(4 * v, d);
    Doubled(2 * v, d);
    Doubled(v, d);
  }

  lemma Doubled(v: nat, d: set<nat>)
    requires v >= 32 && forall k :: k in d ==> k < WINDOW
    ensures Windows(2 * v) + |Looked(2 * v) + d| == 1 + Windows(v) + |Looked(v) + d|
  {
    hide Chain;
    if 2 * v < POWI_TABLE_SIZE {
      ChainDouble(v);
      ChainBelow(v);
      assert Looked(2 * v) + d == {2 * v} + (Looked(v) + d);
    } else {
      assert 2 * v / 2 == v && 2 * v % 2 == 0;
    }
  }

  lemma ChainBelow(v: nat)
    requires 1 <= v < POWI_TABLE_SIZE
    ensures forall k :: k in Chain(v) ==> 1 <= k <= v
  {}

  /** The recursion through the cache emits as many products as the window loop counts. */
  lemma {:induction false} SameCount(n: nat, d: set<nat>)
    requires n >= 1 && forall k :: k in d ==> k < WINDOW
    ensures Windows(n) + |Looked(n) + d| == LoopCost(n) + |LoopChain(n) + d|
    decreases n
  {
    hide Chain;
    if n >= POWI_TABLE_SIZE {
      if n % 2 == 1 {
        OddDigit(n);
        var digit := n % WINDOW;
        var v := n / WINDOW;
        ChainBelow(digit);
        var more := Chain(digit) + d;
        SameCount(v, more);
        Eightfold(v, more);
        assert Looked(n) + d == Looked(8 * v) + more;
        assert LoopChain(n) + d == LoopChain(v) + more;
      } else {
        SameCount(n / 2, d);
      }
    }
  }

  // ---- expand_powi ----

  /** What expand_powi returns: the constant 1, a register, or one divided by a register. */
  datatype Outcome = One | Register(reg: Reg) | Reciprocal(reg: Reg)

  ghost function Filled(cache: seq<Reg>): set<nat> {
    set k: nat | k < |cache| && cache[k] != NONE
  }

  /** The registers cached for exponents up to n hold them; larger ones may still be under way. */
  ghost predicate Ready(cache: seq<Reg>, e: map<Reg, nat>, n: nat) {
    forall k: nat :: k <= n && k < |cache| && cache[k] != NONE ==> cache[k] in e && e[cache[k]] == k
  }

  ghost predicate Extends(e: map<Reg, nat>, f: map<Reg, nat>, bound: Reg) {
    (forall r :: r in e ==> r in f && f[r] == e[r]) && forall r :: r in f && r !in e ==> r >= bound
  }

  ghost predicate Below(e: map<Reg, nat>, next: Reg) {
    forall r :: r in e ==> 1 <= r < next
  }

  /** One more product. */
  lemma Emitted(x: Reg, insns: seq<Insn>, i: Insn, next: Reg)
    requires DefinedBeforeUse(x, insns)
    requires var e := Exponents(x, insns); i.op0 in e && i.op1 in e && i.target !in e && Below(e, next) && 1 <= i.target < next
    ensures DefinedBeforeUse(x, insns + [i])
    ensures var e := Exponents(x, insns); Exponents(x, insns + [i]) == e[i.target := e[i.op0] + e[i.op1]]
    ensures Below(Exponents(x, insns + [i]), next) && Extends(Exponents(x, insns), Exponents(x, insns + [i]), i.target)
  {
    assert (insns + [i])[..|insns|] == insns;
  }

  lemma ReadyLater(c: seq<Reg>, e: map<Reg, nat>, m: nat, d: seq<Reg>, f: map<Reg, nat>, n: nat, bound: Reg)
    requires |c| == |d| && Ready(c, e, m) && Extends(e, f, bound) && Ready(d, f, n)
    requires forall k: nat :: n < k < |c| ==> d[k] == c[k]
    ensures Ready(d, f, m)
  {}

  lemma ReadyUp(c: seq<Reg>, e: map<Reg, nat>, m: nat, n: nat)
    requires Ready(c, e, m) && (n <= m || |c| <= m + 1)
    ensures Ready(c, e, n)
  {}

  lemma ExtendsChain(e: map<Reg, nat>, f: map<Reg, nat>, g: map<Reg, nat>, b: Reg, c: Reg)
    requires Extends(e, f, b) && Extends(f, g, c) && b <= c
    ensures Extends(e, g, b)
  {}

  lemma ExtendsSelf(e: map<Reg, nat>, b: Reg)
    ensures Extends(e, e, b)
  {}

  lemma NewRegister(e: map<Reg, nat>, f: map<Reg, nat>, r: Reg)
    requires Below(e, r) && Extends(e, f, r + 1)
    ensures r !in f
  {}

  lemma CacheHit(c: seq<Reg>, e: map<Reg, nat>, n: nat)
    requires n < |c| && c[n] != NONE && Ready(c, e, n)
    ensures c[n] in e && e[c[n]] == n && n in Filled(c)
  {}

  lemma Underway(c: seq<Reg>, e: map<Reg, nat>, n: nat, d: seq<Reg>)
    requires 1 <= n < |c| == |d| && c[n] == NONE && d[n] != NONE && d == c[n := d[n]]
    requires Ready(c, e, n) && ClosedTo(Filled(c), n)
    ensures Ready(d, e, n - 1) && n !in Filled(c) && Filled(d) == Filled(c) + {n} && ClosedTo(Filled(d), n - 1)
  {
    hide Chain;
  }

  lemma LowerDown(c: seq<Reg>, e: map<Reg, nat>, m: nat, n: nat)
    requires n <= m || (|c| <= m + 1 && |c| == POWI_TABLE_SIZE)
    requires Ready(c, e, m) && ClosedTo(Filled(c), m)
    ensures Ready(c, e, n) && ClosedTo(Filled(c), n)
  {
    hide Chain;
  }

  lemma ReadyDone(c: seq<Reg>, e: map<Reg, nat>, n: nat, f: map<Reg, nat>, b: Reg)
    requires 1 <= n < |c| && Ready(c, e, n - 1) && Extends(e, f, b) && c[n] in f && f[c[n]] == n
    ensures Ready(c, f, n)
  {}

  lemma ReadyMore(c: seq<Reg>, e: map<Reg, nat>, n: nat, f: map<Reg, nat>, b: Reg)
    requires Ready(c, e, n) && Extends(e, f, b)
    ensures Ready(c, f, n)
  {}

  lemma OneFilled(c: seq<Reg>, n: nat)
    requires ClosedTo(Filled(c), n)
    ensures |c| > 1 && c[1] != NONE
  {}

  lemma OperandStays(e: map<Reg, nat>, f: map<Reg, nat>, r: Reg, b: Reg)
    requires r in e && Extends(e, f, b)
    ensures r in f && f[r] == e[r]
  {}

  lemma ExtendsWeaken(e: map<Reg, nat>, f: map<Reg, nat>, g: map<Reg, nat>, r: Reg)
    requires Extends(e, f, r + 1) && Extends(f, g, r)
    ensures Extends(e, g, r)
  {}

  lemma {:induction false} LookedClosed(s: set<nat>, n: nat)
    requires n >= 1 && ClosedTo(s, POWI_TABLE_SIZE)
    ensures ClosedTo(s + Looked(n), POWI_TABLE_SIZE)
    decreases n
  {
    hide Chain, ClosedTo;
    if n < POWI_TABLE_SIZE {
      ClosedMore(s, POWI_TABLE_SIZE, n);
    } else if n % 2 == 1 {
      OddDigit(n);
      LookedClosed(s, n - n % WINDOW);
      ClosedMore(s + Looked(n - n % WINDOW), POWI_TABLE_SIZE, n % WINDOW);
      assert s + Looked(n) == s + Looked(n - n % WINDOW) + Chain(n % WINDOW);
    } else {
      LookedClosed(s, n / 2);
    }
  }

  class Expander {
    var insns: seq<Insn>
    var next: Reg

    /** What has been emitted is in order and next is a new register. */
    ghost predicate Valid(x: Reg)
      reads this
    {
      1 <= x < next && DefinedBeforeUse(x, insns) && Below(Exponents(x, insns), next)
    }

    ghost function Holds(x: Reg): map<Reg, nat>
      reads this`insns
    {
      Exponents(x, insns)
    }

    /** gen_reg_rtx */
    method GenReg(ghost x: Reg) returns (r: Reg)
      requires Valid(x)
      modifies this`next
      ensures r == old(next) && next == r + 1 && Valid(x) && 1 <= r && Below(Holds(x), r)
    {
      r := next;
      next := next + 1;
    }

    /** expand_mult into target */
    method ExpandMult(ghost x: Reg, op0: Reg, op1: Reg, target: Reg)
      requires Valid(x) && op0 in Holds(x) && op1 in Holds(x) && target !in Holds(x) && 1 <= target < next
      modifies this`insns
      ensures Valid(x) && |insns| == old(|insns|) + 1
      ensures Holds(x) == old(Holds(x))[target := old(Holds(x))[op0] + old(Holds(x))[op1]]
      ensures Extends(old(Holds(x)), Holds(x), target)
    {
      hide Exponents, DefinedBeforeUse, Extends, Below;
      Emitted(x, insns, Product(target, op0, op1), next);
      insns := insns + [Product(target, op0, op1)];
    }

    /** expand_powi_1 */
    method ExpandPowi1(n: nat, cache: array<Reg>, ghost x: Reg) returns (target: Reg)
      requires n >= 1 && cache.Length == POWI_TABLE_SIZE && Valid(x)
      requires Ready(cache[..], Holds(x), n) && ClosedTo(Filled(cache[..]), n)
      modifies this, cache
      ensures Valid(x) && next >= old(next) && Extends(old(Holds(x)), Holds(x), old(next))
      ensures target in Holds(x) && Holds(x)[target] == n
      ensures Ready(cache[..], Holds(x), n) && forall k: nat :: n < k < cache.Length ==> cache[k] == old(cache[k])
      ensures Filled(cache[..]) == Filled(old(cache[..])) + Looked(n)
      ensures |insns| == old(|insns|) + Windows(n) + |Filled(cache[..])| - |Filled(old(cache[..]))|
      decreases n, 1
    {
      hide Exponents, DefinedBeforeUse, Extends, Below, Chain, ClosedTo, Table, Ready, Expander.Valid, Expander.Holds, Filled;
      ghost var c0, e0, next0 := cache[..], Holds(x), next;
      if n < POWI_TABLE_SIZE {
        if cache[n] != NONE {
          target := cache[n];
          CacheHit(c0, e0, n);
          CachedAlready(Filled(c0), n);
          ExtendsSelf(e0, next);
          return;
        }
        target := ExpandFromTable(n, cache, x);
      } else if n % 2 == 1 {
        target := GenReg(x);
        OddDigit(n);
        var digit := n % WINDOW;
        LowerDown(c0, e0, n, n - digit);
        LowerDown(c0, e0, n, POWI_TABLE_SIZE);
        LookedClosed(Filled(c0), n - digit);
        var op0 := ExpandPowi1(n - digit, cache, x);
        ghost var c1, e1, next1 := cache[..], Holds(x), next;
        ReadyUp(c1, e1, n - digit, POWI_TABLE_SIZE);
        LowerDown(c1, e1, POWI_TABLE_SIZE, digit);
        var op1 := ExpandPowi1(digit, cache, x);
        ghost var c2, e2 := cache[..], Holds(x);
        ReadyLater(c1, e1, POWI_TABLE_SIZE, c2, e2, digit, next1);
        ExtendsChain(e0, e1, e2, next0 + 1, next1);
        NewRegister(e0, e2, target);
        OperandStays(e1, e2, op0, next1);
        ExpandMult(x, op0, op1, target);
        ReadyMore(c2, e2, POWI_TABLE_SIZE, Holds(x), target);
        ReadyUp(c2, Holds(x), POWI_TABLE_SIZE, n);
        ExtendsWeaken(e0, e2, Holds(x), next0);
      } else {
        target := GenReg(x);
        LowerDown(c0, e0, n, n / 2);
        var op0 := ExpandPowi1(n / 2, cache, x);
        ghost var c1, e1 := cache[..], Holds(x);
        ReadyLater(c0, e0, n, c1, e1, n / 2, next0 + 1);
        NewRegister(e0, e1, target);
        ExpandMult(x, op0, op0, target);
        ReadyMore(c1, e1, n, Holds(x), target);
        ExtendsWeaken(e0, e1, Holds(x), next0);
      }
    }

    /** expand_powi_1 for an exponent of the table that is not cached: it is cached before it is computed. */
    method ExpandFromTable(n: nat, cache: array<Reg>, ghost x: Reg) returns (target: Reg)
      requires 1 <= n < POWI_TABLE_SIZE == cache.Length && cache[n] == NONE && Valid(x)
      requires Ready(cache[..], Holds(x), n) && ClosedTo(Filled(cache[..]), n)
      modifies this, cache
      ensures Valid(x) && next >= old(next) && Extends(old(Holds(x)), Holds(x), old(next))
      ensures target in Holds(x) && Holds(x)[target] == n
      ensures Ready(cache[..], Holds(x), n) && forall k: nat :: n < k < cache.Length ==> cache[k] == old(cache[k])
      ensures Filled(cache[..]) == Filled(old(cache[..])) + Chain(n)
      ensures |insns| == old(|insns|) + |Filled(cache[..])| - |Filled(old(cache[..]))|
      decreases n, 0
    {
      hide Exponents, DefinedBeforeUse, Extends, Below, Chain, ClosedTo, Table, Ready, Expander.Valid, Expander.Holds, Filled;
      ghost var c0, e0, next0 := cache[..], Holds(x), next;
      OneFilled(c0, n);
      target := GenReg(x);
      cache[n] := target;
      ghost var c1 := cache[..];
      Underway(c0, e0, n, c1);
      OwnChain(n);
      LowerDown(c1, e0, n - 1, n - Table(n));
      var op0 := ExpandPowi1(n - Table(n), cache, x);
      ghost var c2, e2, next1 := cache[..], Holds(x), next;
      ReadyLater(c1, e0, n - 1, c2, e2, n - Table(n), next0 + 1);
      ClosedMore(Filled(c1), n - 1, n - Table(n));
      LowerDown(c2, e2, n - 1, Table(n));
      var op1 := ExpandPowi1(Table(n), cache, x);
      ghost var c3, e3 := cache[..], Holds(x);
      ReadyLater(c2, e2, n - 1, c3, e3, Table(n), next1);
      ExtendsChain(e0, e2, e3, next0 + 1, next1);
      NewRegister(e0, e3, target);
      OperandStays(e2, e3, op0, next1);
      ExpandMult(x, op0, op1, target);
      ReadyDone(c3, e3, n, Holds(x), target);
      ExtendsWeaken(e0, e3, Holds(x), next0);
    }

    /** expand_powi, into an empty sequence: as many products as powi_cost says, and they compute x to the |n|. */
    method ExpandPowi(n: int, x: Reg) returns (result: Outcome)
      requires 1 <= x < next && insns == []
      modifies this
      ensures n == 0 ==> result == One && insns == []
      ensures n > 0 ==> result.Register? && result.reg in Exponents(x, insns) && Exponents(x, insns)[result.reg] == n
      ensures n < 0 ==> result.Reciprocal? && result.reg in Exponents(x, insns) && Exponents(x, insns)[result.reg] == -n
      ensures DefinedBeforeUse(x, insns) && |insns| == Cost(n)
    {
      hide DefinedBeforeUse, Exponents, Extends, Chain, ClosedTo, Table, Ready, Cost, Windows, Looked, Filled;
      Start(x);
      if n == 0 { return One; }
      var cache := new Reg[POWI_TABLE_SIZE](_ => NONE);
      cache[1] := x;
      OneClosed();
      StartReady(cache[..], x, Abs(n));
      LowerDown(cache[..], Exponents(x, insns), POWI_TABLE_SIZE, Abs(n));
      var r := ExpandPowi1(Abs(n), cache, x);
      CountIsCost(n);
      return if n < 0 then Reciprocal(r) else Register(r);
    }
  }

  lemma StartReady(c: seq<Reg>, x: Reg, n: nat)
    requires |c| == POWI_TABLE_SIZE && forall k: nat :: k < |c| ==> c[k] == if k == 1 then x else NONE
    ensures x != NONE ==> Ready(c, map[x := 1], POWI_TABLE_SIZE) && Filled(c) == {1}
  {}

  lemma Start(x: Reg)
    ensures DefinedBeforeUse(x, []) && Exponents(x, []) == map[x := 1]
    ensures Cost(0) == 0
  {}

  /** The products a call emits, starting with x alone in the cache, are what powi_cost predicts. */
  lemma CountIsCost(n: int)
    requires n != 0
    ensures Windows(Abs(n)) + |{1} + Looked(Abs(n))| - |{1}| == Cost(n)
  {
    hide Chain;
    SameCount(Abs(n), {1});
    assert {1} + Looked(Abs(n)) == Looked(Abs(n)) + {1};
    assert LoopChain(Abs(n)) + {1} == LoopChain(Abs(n));
  }
}
