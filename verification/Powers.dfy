/** powi_lookup_cost, powi_cost, expand_powi_1 and expand_powi of builtins.c. */
module Powers {
  import opened PowerTable

  const POWI_WINDOW_SIZE: nat := 3
  const WINDOW: nat := 8  // 1 << POWI_WINDOW_SIZE

  // ---- the exponents an evaluation needs ----

  /** All exponents needed to evaluate x**n through the table, n itself among them. */
  function Chain(n: nat): (c: set<nat>)
    requires 1 <= n < POWI_TABLE_SIZE
    ensures n in c && 1 in c && forall k :: k in c ==> 1 <= k <= n
    decreases n
  {
    if n == 1 then {1}
    else
      GoodEntry(n);
      {n} + Chain(n - Table(n)) + Chain(Table(n))
  }

  /** An exponent needs itself and what its table entry splits it into; an even one is split in half. */
  lemma OwnChain(n: nat)
    requires 2 <= n < POWI_TABLE_SIZE
    ensures 0 < Table(n) < n && Chain(n) == {n} + Chain(n - Table(n)) + Chain(Table(n))
    ensures n % 2 == 0 ==> Table(n) == n / 2
  {
    GoodEntry(n);
    hide Table;
  }

  lemma {:induction false} ChainOfMember(n: nat, k: nat)
    requires 1 <= n < POWI_TABLE_SIZE && k in Chain(n)
    ensures 1 <= k < POWI_TABLE_SIZE && Chain(k) <= Chain(n)
    decreases n
  {
    hide Table, Chain;
    if k != n && n > 1 {
      OwnChain(n);
      if k in Chain(n - Table(n)) { ChainOfMember(n - Table(n), k); } else { ChainOfMember(Table(n), k); }
    }
  }

  /** Doubling an exponent takes one more product. */
  lemma ChainDouble(n: nat)
    requires 1 <= n && 2 * n < POWI_TABLE_SIZE
    ensures Chain(2 * n) == {2 * n} + Chain(n)
  {
    hide Table, Chain;
    OwnChain(2 * n);
  }

  /** s has, with an exponent up to n, all that are needed for it. */
  ghost predicate ClosedTo(s: set<nat>, n: nat) {
    1 in s && forall k :: k in s && 1 <= k <= n && k < POWI_TABLE_SIZE ==> Chain(k) <= s
  }

  lemma ClosedMore(s: set<nat>, n: nat, m: nat)
    requires ClosedTo(s, n) && 1 <= m < POWI_TABLE_SIZE
    ensures ClosedTo(s + Chain(m), n)
  {
    hide Table, Chain;
    var u := s + Chain(m);
    forall k | k in u && 1 <= k <= n && k < POWI_TABLE_SIZE ensures Chain(k) <= u {
      if k in Chain(m) { ChainOfMember(m, k); }
    }
  }

  // ---- powi_lookup_cost ----

  ghost function Cached(cache: seq<bool>): set<nat> {
    set k: nat | k < |cache| && cache[k]
  }

  /** powi_lookup_cost: the exponents added to the cache are counted. */
  method PowiLookupCost(n: nat, cache: array<bool>) returns (cost: nat)
    requires 1 <= n < POWI_TABLE_SIZE == cache.Length && ClosedTo(Cached(cache[..]), n)
    modifies cache
    ensures Cached(cache[..]) == Cached(old(cache[..])) + Chain(n)
    ensures cost == |Cached(cache[..])| - |Cached(old(cache[..]))|
    decreases n
  {
    hide Table, Chain;
    ghost var s := Cached(cache[..]);
    if cache[n] {
      CachedAlready(s, n);
      return 0;
    }
    OwnChain(n);
    cache[n] := true;
    ghost var s0 := Cached(cache[..]);
    assert s0 == s + {n};
    assert ClosedTo(s0, n - 1);
    ClosedLower(s0, n - 1, n - Table(n));
    var cost0 := PowiLookupCost(n - Table(n), cache);
    ghost var s1 := Cached(cache[..]);
    ClosedMore(s0, n - 1, n - Table(n));
    ClosedLower(s1, n - 1, Table(n));
    var cost1 := PowiLookupCost(Table(n), cache);
    cost := cost0 + cost1 + 1;
  }

  lemma CachedAlready(s: set<nat>, n: nat)
    requires n in s && 1 <= n < POWI_TABLE_SIZE && ClosedTo(s, n)
    ensures s + Chain(n) == s
  {}

  lemma ClosedLower(s: set<nat>, n: nat, m: nat)
    requires ClosedTo(s, n) && m <= n
    ensures ClosedTo(s, m)
  {}

  // ---- powi_cost ----

  /** The products of the window loop of powi_cost. */
  function LoopCost(val: nat): nat {
    if val < POWI_TABLE_SIZE then 0
    else if val % 2 == 1 then POWI_WINDOW_SIZE + 1 + LoopCost(val / WINDOW)
    else 1 + LoopCost(val / 2)
  }

  /** The exponents it looks up: the odd digits and what is left in the end. */
  function LoopChain(val: nat): (c: set<nat>)
    requires val >= 1
    ensures 1 in c
    decreases val
  {
    if val < POWI_TABLE_SIZE then Chain(val)
    else if val % 2 == 1 then Chain(val % WINDOW) + LoopChain(val / WINDOW)
    else LoopChain(val / 2)
  }

  function Abs(n: int): nat { if n < 0 then -n else n }

  /** powi_cost */
  function Cost(n: int): int {
    if n == 0 then 0 else LoopCost(Abs(n)) + |LoopChain(Abs(n))| - 1
  }

  /** powi_cost: the window loop. */
  method PowiCost(n: int) returns (result: nat)
    ensures result == Cost(n)
  {
    if n == 0 { return 0; }
    var val := Abs(n);
    var cache := new bool[POWI_TABLE_SIZE](_ => false);
    cache[1] := true;
    result := 0;
    assert Cached(cache[..]) == {1};
    OneClosed();
    while val >= POWI_TABLE_SIZE
      invariant val >= 1 && ClosedTo(Cached(cache[..]), POWI_TABLE_SIZE)
      invariant result + LoopCost(val) - |Cached(cache[..])| + |Cached(cache[..]) + LoopChain(val)| == Cost(n)
    {
      hide Chain, Cached, ClosedTo;
      ghost var s := Cached(cache[..]);
      if val % 2 == 1 {
        var digit := val % WINDOW;
        OddDigit(val);
        ClosedLowerTo(s, digit);
        var cost := PowiLookupCost(digit, cache);
        ClosedMore(s, POWI_TABLE_SIZE, digit);
        result := result + cost + POWI_WINDOW_SIZE + 1;
        assert s + LoopChain(val) == s + Chain(digit) + LoopChain(val / WINDOW);
        val := val / WINDOW;
      } else {
        val := val / 2;
        result := result + 1;
      }
    }
    ClosedLowerTo(Cached(cache[..]), val);
    var cost := PowiLookupCost(val, cache);
    result := result + cost;
  }

  lemma OneClosed()
    ensures ClosedTo({1}, POWI_TABLE_SIZE) && forall c: set<nat> :: 1 in c ==> {1} + c == c
  {
    assert Chain(1) == {1};
  }

  lemma ClosedLowerTo(s: set<nat>, m: nat)
    requires ClosedTo(s, POWI_TABLE_SIZE) && m < POWI_TABLE_SIZE
    ensures ClosedTo(s, m)
  {}

  lemma OddDigit(val: nat)
    requires val % 2 == 1
    ensures val % WINDOW % 2 == 1 && 1 <= val % WINDOW < WINDOW
    ensures val >= POWI_TABLE_SIZE ==> val - val % WINDOW == WINDOW * (val / WINDOW) >= POWI_TABLE_SIZE && val / WINDOW >= 32
  {}
}
