/** Alias sets of types: get_alias_set (its part on types), record_component_aliases, record_alias_subset and
    alias_sets_conflict_p of alias.c. */
module AliasSets {
  /** What the language says about a type before anything else: nothing, that it aliases everything, or that it is to
      be treated like another type. */
  datatype Language = NoOpinion | AliasesAll | SameAs(t: nat)

  /** A field of a record or union. Those marked DECL_NONADDRESSABLE_P are not addressable. */
  datatype Field = Field(ofType: nat, addressable: bool)

  /** Function types, vector types, arrays (with TYPE_NONALIASED_COMPONENT), records and unions with their base classes and
      fields, complex types, and all others. */
  datatype Kind =
    | Function
    | Vector(element: nat)
    | Array(element: nat, nonaliased: bool)
    | Record(bases: seq<nat>, fields: seq<Field>)
    | Complex(element: nat)
    | Plain

  datatype TypeInfo = TypeInfo(language: Language, kind: Kind)

  /** Types are numbered after the types they are made of. */
  predicate Acyclic(ts: seq<TypeInfo>) {
    forall t :: 0 <= t < |ts| ==>
      && (ts[t].language.SameAs? ==> ts[t].language.t < t)
      && (ts[t].kind.Vector? || ts[t].kind.Array? || ts[t].kind.Complex? ==> ts[t].kind.element < t)
      && (ts[t].kind.Record? ==>
            (forall i :: 0 <= i < |ts[t].kind.bases| ==> ts[t].kind.bases[i] < t)
            && (forall i :: 0 <= i < |ts[t].kind.fields| ==> ts[t].kind.fields[i].ofType < t))
  }

  const ZERO_SET: int := -1

  /** The type whose alias set t has, or ZERO_SET. */
  function Owner(ts: seq<TypeInfo>, t: nat): (r: int)
    requires Acyclic(ts) && t < |ts|
    ensures -1 <= r <= t
    ensures r >= 0 ==> ts[r].language.NoOpinion? && !ts[r].kind.Function? && !ts[r].kind.Vector?
    decreases t
  {
    match ts[t].language
    case AliasesAll => ZERO_SET
    case SameAs(u) => Owner(ts, u)
    case NoOpinion =>
      match ts[t].kind
      case Function => ZERO_SET
      case Vector(e) => Owner(ts, e)
      case _ => t
  }

  /** The types of the addressable fields. */
  function Addressable(fs: seq<Field>): seq<nat> {
    if fs == [] then []
    else
      var f := fs[|fs| - 1];
      Addressable(fs[..|fs| - 1]) + if f.addressable then [f.ofType] else []
  }

  /** The types whose sets are recorded below that of t, in the order in which they are. */
  function Components(ts: seq<TypeInfo>, t: nat): (cs: seq<nat>)
    requires Acyclic(ts) && t < |ts|
    ensures forall i :: 0 <= i < |cs| ==> cs[i] < t
  {
    match ts[t].kind
    case Array(e, nonaliased) => if nonaliased then [] else [e]
    case Record(bases, fields) =>
      FieldsBelow(fields, t);
      bases + Addressable(fields)
    case Complex(e) => [e]
    case _ => []
  }

  /** An object of type c is part of one of type t: an element of an array or complex number, a base or a field; elements
      and fields whose address is not taken do not count. */
  predicate Part(ts: seq<TypeInfo>, t: nat, c: nat)
    requires t < |ts|
  {
    match ts[t].kind
    case Array(e, nonaliased) => c == e && !nonaliased
    case Record(bases, fields) => c in bases || Field(c, true) in fields
    case Complex(e) => c == e
    case _ => false
  }

  lemma {:induction false} AddressableMeaning(fs: seq<Field>)
    ensures forall c :: c in Addressable(fs) <==> Field(c, true) in fs
  {
    if fs != [] {
      var f := fs[|fs| - 1];
      AddressableMeaning(fs[..|fs| - 1]);
      assert fs == fs[..|fs| - 1] + [f];
      assert f == Field(f.ofType, f.addressable);
    }
  }

  lemma FieldsBelow(fs: seq<Field>, t: nat)
    requires forall i :: 0 <= i < |fs| ==> fs[i].ofType < t
    ensures forall i :: 0 <= i < |Addressable(fs)| ==> Addressable(fs)[i] < t
  {
    AddressableMeaning(fs);
    forall i | 0 <= i < |Addressable(fs)| ensures Addressable(fs)[i] < t {
      var c := Addressable(fs)[i];
      assert Field(c, true) in fs;
    }
  }

  lemma NoFields()
    ensures Addressable([]) == []
  {}

  lemma RecordComponents(ts: seq<TypeInfo>, t: nat, bases: seq<nat>, fields: seq<Field>)
    requires Acyclic(ts) && t < |ts| && ts[t].kind == Record(bases, fields)
    ensures Components(ts, t) == bases + Addressable(fields)
  {}

  lemma AddressableNext(fs: seq<Field>, i: nat)
    requires i < |fs|
    ensures Addressable(fs[..i + 1]) == Addressable(fs[..i]) + if fs[i].addressable then [fs[i].ofType] else []
  {
    assert fs[..i + 1][..i] == fs[..i];
  }

  lemma {:induction false} AddressablePrefix(fs: seq<Field>, i: nat)
    requires i <= |fs|
    ensures Addressable(fs[..i]) <= Addressable(fs)
    decreases |fs| - i
  {
    if i < |fs| {
      AddressableNext(fs, i);
      AddressablePrefix(fs, i + 1);
    } else {
      assert fs[..i] == fs;
    }
  }

  /** What is directly in t are the owners of its parts. */
  lemma DirectMeaning(ts: seq<TypeInfo>, t: nat, d: int)
    requires Acyclic(ts) && t < |ts|
    ensures Direct(ts, t, d) <==> exists c :: 0 <= c < t && Part(ts, t, c) && d == Owner(ts, c)
  {
    hide Owner;
    PartMeaning(ts, t);
    var cs := Components(ts, t);
    if Direct(ts, t, d) {
      var i :| 0 <= i < |cs| && ComponentOwner(ts, t, i) == d;
      assert cs[i] in cs;
    }
    if c :| 0 <= c < t && Part(ts, t, c) && d == Owner(ts, c) {
      assert c in cs;
      var i :| 0 <= i < |cs| && cs[i] == c;
      assert ComponentOwner(ts, t, i) == d;
    }
  }

  lemma PartMeaning(ts: seq<TypeInfo>, t: nat)
    requires Acyclic(ts) && t < |ts|
    ensures forall c: nat :: c in Components(ts, t) <==> Part(ts, t, c)
  {
    if ts[t].kind.Record? { AddressableMeaning(ts[t].kind.fields); }
  }

  /** d is the owner of a component of t. */
  predicate Direct(ts: seq<TypeInfo>, t: nat, d: int)
    requires Acyclic(ts) && t < |ts|
  {
    exists i :: 0 <= i < |Components(ts, t)| && ComponentOwner(ts, t, i) == d
  }

  function ComponentOwner(ts: seq<TypeInfo>, t: nat, i: nat): (r: int)
    requires Acyclic(ts) && t < |ts| && i < |Components(ts, t)|
    ensures -1 <= r < t
  {
    Owner(ts, Components(ts, t)[i])
  }

  /** Plain reachability: a chain of types, each with the next one (or ZERO_SET at the end) among its components. */
  ghost predicate Chain(ts: seq<TypeInfo>, path: seq<int>) {
    && Acyclic(ts) && |path| > 1
    && (forall i :: 0 <= i < |path| - 1 ==> 0 <= path[i] < |ts| && Direct(ts, path[i], path[i + 1]))
  }

  /** t contains a type of set d, at some depth. */
  ghost predicate Contains(ts: seq<TypeInfo>, t: nat, d: int) {
    exists path :: Chain(ts, path) && path[0] == t && path[|path| - 1] == d
  }

  // ---- the flattened form ----

  /** The owners of the types inside t, ZERO_SET among them if some type has it. */
  ghost function Inside(ts: seq<TypeInfo>, t: nat, n: nat): set<int>
    requires Acyclic(ts) && t < |ts| && n <= |Components(ts, t)|
    decreases t, n
  {
    if n == 0 then {}
    else Inside(ts, t, n - 1) + Whole(ts, ComponentOwner(ts, t, n - 1), t)
  }

  /** d and what is inside it. */
  ghost function Whole(ts: seq<TypeInfo>, d: int, bound: nat): set<int>
    requires Acyclic(ts) && -1 <= d < bound <= |ts|
    decreases bound, 0
  {
    if d < 0 then {d} else {d} + Inside(ts, d, |Components(ts, d)|)
  }

  ghost function AllInside(ts: seq<TypeInfo>, t: nat): set<int>
    requires Acyclic(ts) && t < |ts|
  {
    Inside(ts, t, |Components(ts, t)|)
  }

  /** d is the owner of component i of t, or inside it. */
  ghost predicate Under(ts: seq<TypeInfo>, t: nat, i: nat, d: int)
    requires Acyclic(ts) && t < |ts| && i < |Components(ts, t)|
  {
    var c := ComponentOwner(ts, t, i);
    c == d || (c >= 0 && d in AllInside(ts, c))
  }

  lemma {:induction false} InsideMeaning(ts: seq<TypeInfo>, t: nat, n: nat, d: int)
    requires Acyclic(ts) && t < |ts| && n <= |Components(ts, t)|
    ensures d in Inside(ts, t, n) <==> exists i :: 0 <= i < n && Under(ts, t, i, d)
    decreases n
  {
    if n > 0 {
      InsideMeaning(ts, t, n - 1, d);
      InsideStep(ts, t, n - 1, d);
      hide Under, Inside;
    }
  }

  lemma InsideStep(ts: seq<TypeInfo>, t: nat, n: nat, d: int)
    requires Acyclic(ts) && t < |ts| && n < |Components(ts, t)|
    ensures d in Inside(ts, t, n + 1) <==> d in Inside(ts, t, n) || Under(ts, t, n, d)
  {}

  lemma {:induction false} InsideReached(ts: seq<TypeInfo>, t: nat, d: int)
    requires Acyclic(ts) && t < |ts| && d in AllInside(ts, t)
    ensures Contains(ts, t, d)
    decreases t
  {
    var n := |Components(ts, t)|;
    InsideMeaning(ts, t, n, d);
    var i :| 0 <= i < n && Under(ts, t, i, d);
    var c := ComponentOwner(ts, t, i);
    assert Direct(ts, t, c);
    hide Owner, Inside, Under;
    if c == d {
      OneStep(ts, t, d);
    } else {
      InsideReached(ts, c, d);
      var path: seq<int> :| Chain(ts, path) && path[0] == c && path[|path| - 1] == d;
      LongerChain(ts, t, path);
      assert ([t as int] + path)[|path|] == d;
    }
  }

  lemma OneStep(ts: seq<TypeInfo>, t: nat, d: int)
    requires Acyclic(ts) && t < |ts| && Direct(ts, t, d)
    ensures Contains(ts, t, d)
  {
    assert Chain(ts, [t, d]);
  }

  lemma {:induction false} ReachedInside(ts: seq<TypeInfo>, t: nat, path: seq<int>)
    requires Chain(ts, path) && path[0] == t
    ensures t < |ts| && path[|path| - 1] in AllInside(ts, t)
    decreases |path|
  {
    hide Owner, Inside;
    var d := path[|path| - 1];
    assert Direct(ts, t, path[1]) by { assert Direct(ts, path[0], path[0 + 1]); }
    var n := |Components(ts, t)|;
    var i :| 0 <= i < n && ComponentOwner(ts, t, i) == path[1];
    if |path| > 2 {
      ShorterChain(ts, path);
      var c: nat := path[1];
      ReachedInside(ts, c, path[1..]);
    }
    assert Under(ts, t, i, d);
    InsideMeaning(ts, t, n, d);
  }

  /** The flattened form is reachability. */
  lemma InsideIsContains(ts: seq<TypeInfo>, t: nat, d: int)
    requires Acyclic(ts) && t < |ts|
    ensures d in AllInside(ts, t) <==> Contains(ts, t, d)
  {
    hide Inside, Owner;
    if d in AllInside(ts, t) { InsideReached(ts, t, d); }
    if Contains(ts, t, d) {
      var path: seq<int> :| Chain(ts, path) && path[0] == t && path[|path| - 1] == d;
      ReachedInside(ts, t, path);
    }
  }

  lemma LongerChain(ts: seq<TypeInfo>, t: nat, path: seq<int>)
    requires Chain(ts, path) && t < |ts| && Direct(ts, t, path[0])
    ensures Chain(ts, [t] + path)
  {
    var p := [t as int] + path;
    forall i | 0 <= i < |p| - 1 ensures 0 <= p[i] < |ts| && Direct(ts, p[i], p[i + 1]) {
      if i > 0 { assert p[i] == path[i - 1] && p[i + 1] == path[i - 1 + 1]; }
    }
  }

  lemma ShorterChain(ts: seq<TypeInfo>, path: seq<int>)
    requires Chain(ts, path) && |path| > 2
    ensures Chain(ts, path[1..]) && 0 <= path[1] < |ts| && Contains(ts, path[1], path[|path| - 1])
  {
    var p := path[1..];
    forall i | 0 <= i < |p| - 1 ensures 0 <= p[i] < |ts| && Direct(ts, p[i], p[i + 1]) {
      assert p[i] == path[i + 1] && p[i + 1] == path[i + 1 + 1];
    }
  }

  // ---- the table ----

  datatype Option<T> = None | Some(value: T)

  /** alias_set_entry */
  datatype Entry = Entry(children: set<nat>, hasZeroChild: bool)

  /** The vector alias_sets, and TYPE_ALIAS_SET where it is known. */
  datatype Table = Table(sets: seq<Option<Entry>>, typeSet: map<nat, nat>)

  /** The set of an owner. */
  function OwnerSet(tb: Table, d: int): nat {
    if d >= 0 && d in tb.typeSet then tb.typeSet[d] else 0
  }

  function EntryOf(tb: Table, s: nat): Entry {
    if s < |tb.sets| && tb.sets[s].Some? then tb.sets[s].value else Entry({}, false)
  }

  /** t has the set of its owner. */
  ghost predicate NumberedAs(ts: seq<TypeInfo>, tb: Table, t: nat)
    requires Acyclic(ts)
  {
    && t < |ts| && t in tb.typeSet && (Owner(ts, t) >= 0 ==> Owner(ts, t) in tb.typeSet)
    && tb.typeSet[t] == OwnerSet(tb, Owner(ts, t))
  }

  /** t is its own owner, and has been numbered. */
  ghost predicate OwnNumber(ts: seq<TypeInfo>, tb: Table, t: nat)
    requires Acyclic(ts)
  {
    t < |ts| && t in tb.typeSet && Owner(ts, t) == t
  }

  /** Every type has the set of its owner, and different owners have different sets, none of them zero. */
  ghost predicate Numbered(ts: seq<TypeInfo>, tb: Table, strict: bool) {
    Acyclic(ts) && AllAs(ts, tb) && InRange(ts, tb, strict) && (strict ==> AllDifferent(ts, tb))
  }

  ghost predicate AllAs(ts: seq<TypeInfo>, tb: Table)
    requires Acyclic(ts)
  {
    forall t :: t in tb.typeSet ==> NumberedAs(ts, tb, t)
  }

  ghost predicate InRange(ts: seq<TypeInfo>, tb: Table, strict: bool)
    requires Acyclic(ts)
  {
    forall t: nat :: OwnNumber(ts, tb, t) ==> if strict then 0 < tb.typeSet[t] < |tb.sets| else tb.typeSet[t] == 0
  }

  ghost predicate AllDifferent(ts: seq<TypeInfo>, tb: Table)
    requires Acyclic(ts)
  {
    forall t: nat, u: nat :: OwnNumber(ts, tb, t) && OwnNumber(ts, tb, u) && t != u ==> tb.typeSet[t] != tb.typeSet[u]
  }

  ghost function SetsOf(tb: Table, ds: set<int>): set<nat> {
    set d | d in ds && d >= 0 && d in tb.typeSet :: tb.typeSet[d]
  }

  ghost predicate AllNumbered(tb: Table, ds: set<int>) {
    forall d :: d in ds && d >= 0 ==> d in tb.typeSet
  }

  /** The entry of t lists the sets of the types in ds. */
  ghost predicate Lists(tb: Table, t: nat, ds: set<int>) {
    && t in tb.typeSet && AllNumbered(tb, ds)
    && EntryOf(tb, tb.typeSet[t]) == Entry(SetsOf(tb, ds), ZERO_SET in ds)
  }

  /** Every owner numbered below the bound lists all types inside it. */
  ghost predicate CompleteBelow(ts: seq<TypeInfo>, tb: Table, bound: nat)
    requires Acyclic(ts)
  {
    forall t: nat :: OwnNumber(ts, tb, t) && t < bound ==> Lists(tb, t, AllInside(ts, t))
  }

  /** What a call on type t keeps: known sets, and the entries of sets made before. */
  ghost predicate Keeps(tb: Table, now: Table, bound: nat) {
    && (forall u :: u in tb.typeSet ==> u in now.typeSet && now.typeSet[u] == tb.typeSet[u])
    && (forall u :: u in now.typeSet ==> u in tb.typeSet || u < bound)
    && |tb.sets| <= |now.sets| && (forall x :: 0 <= x < |tb.sets| ==> now.sets[x] == tb.sets[x])
  }

  lemma KeepsTwice(a: Table, b: Table, c: Table, m: nat, n: nat)
    requires Keeps(a, b, m) && Keeps(b, c, n) && m <= n
    ensures Keeps(a, c, n)
  {}

  lemma SetsOfKept(tb: Table, now: Table, bound: nat, ds: set<int>)
    requires Keeps(tb, now, bound) && AllNumbered(tb, ds)
    ensures SetsOf(now, ds) == SetsOf(tb, ds) && AllNumbered(now, ds)
  {}

  lemma ListsKept(tb: Table, now: Table, bound: nat, t: nat, ds: set<int>)
    requires Keeps(tb, now, bound) && Lists(tb, t, ds) && tb.typeSet[t] < |tb.sets|
    ensures Lists(now, t, ds)
  {
    SetsOfKept(tb, now, bound, ds);
  }

  // ---- what recording one more component does ----

  /** What record_alias_subset makes of an entry. */
  function WithSubset(tb: Table, e: Entry, subset: nat): Entry {
    if subset == 0 then e.(hasZeroChild := true)
    else Entry(e.children + EntryOf(tb, subset).children + {subset}, e.hasZeroChild || EntryOf(tb, subset).hasZeroChild)
  }

  lemma SetsOfUnion(tb: Table, a: set<int>, b: set<int>)
    ensures SetsOf(tb, a + b) == SetsOf(tb, a) + SetsOf(tb, b)
    ensures AllNumbered(tb, a) && AllNumbered(tb, b) ==> AllNumbered(tb, a + b)
  {}

  lemma SetsOfOne(tb: Table, d: int)
    ensures d >= 0 && d in tb.typeSet ==> SetsOf(tb, {d}) == {tb.typeSet[d]} && AllNumbered(tb, {d})
    ensures d < 0 ==> SetsOf(tb, {d}) == {} && AllNumbered(tb, {d})
  {}

  /** Recording the component n of t extends the list of t by the owner of the component and all inside it. */
  lemma OneMoreComponent(ts: seq<TypeInfo>, tb: Table, now: Table, t: nat, n: nat, subset: nat)
    requires Acyclic(ts)
    requires Numbered(ts, tb, true) && CompleteBelow(ts, tb, t) && OwnNumber(ts, tb, t) && n < |Components(ts, t)|
    requires Lists(tb, t, Inside(ts, t, n))
    requires var d := ComponentOwner(ts, t, n); subset == OwnerSet(tb, d) && (d >= 0 ==> d in tb.typeSet)
    requires now.typeSet == tb.typeSet
    requires EntryOf(now, tb.typeSet[t]) ==
      if tb.typeSet[t] == subset then EntryOf(tb, tb.typeSet[t]) else WithSubset(tb, EntryOf(tb, tb.typeSet[t]), subset)
    requires tb.typeSet[t] != 0
    ensures Lists(now, t, Inside(ts, t, n + 1))
  {
    hide Inside, Owner, Numbered, CompleteBelow, Lists, WithSubset, ComponentOwner;
    var d := ComponentOwner(ts, t, n);
    InsideGrows(ts, t, n);
    if d < 0 {
      ZeroAdded(tb, now, t, Inside(ts, t, n));
    } else {
      ComponentKnown(ts, tb, t, n);
      OwnerAdded(tb, now, t, Inside(ts, t, n), d, AllInside(ts, d));
    }
  }

  lemma InsideGrows(ts: seq<TypeInfo>, t: nat, n: nat)
    requires Acyclic(ts) && t < |ts| && n < |Components(ts, t)|
    ensures var d := ComponentOwner(ts, t, n);
      Inside(ts, t, n + 1) == Inside(ts, t, n) + if d < 0 then {ZERO_SET} else {d} + AllInside(ts, d)
  {}

  lemma ComponentKnown(ts: seq<TypeInfo>, tb: Table, t: nat, n: nat)
    requires Numbered(ts, tb, true) && CompleteBelow(ts, tb, t) && OwnNumber(ts, tb, t) && n < |Components(ts, t)|
    requires var d := ComponentOwner(ts, t, n); d >= 0 && d in tb.typeSet
    ensures var d := ComponentOwner(ts, t, n);
      d < |ts| && Lists(tb, d, AllInside(ts, d)) && tb.typeSet[d] > 0 && tb.typeSet[d] != tb.typeSet[t]
  {
    hide Inside;
    var d := ComponentOwner(ts, t, n);
    OwnersOwn(ts, Components(ts, t)[n]);
    assert OwnNumber(ts, tb, d);
  }

  lemma ZeroAdded(tb: Table, now: Table, t: nat, before: set<int>)
    requires Lists(tb, t, before) && now.typeSet == tb.typeSet && tb.typeSet[t] != 0
    requires EntryOf(now, tb.typeSet[t]) == WithSubset(tb, EntryOf(tb, tb.typeSet[t]), 0)
    ensures Lists(now, t, before + {ZERO_SET})
  {
    SetsOfUnion(tb, before, {ZERO_SET});
    SetsOfOne(tb, ZERO_SET);
    assert SetsOf(now, before + {ZERO_SET}) == SetsOf(tb, before + {ZERO_SET});
  }

  lemma OwnerAdded(tb: Table, now: Table, t: nat, before: set<int>, d: nat, under: set<int>)
    requires Lists(tb, t, before) && Lists(tb, d, under) && now.typeSet == tb.typeSet && tb.typeSet[d] > 0
    requires EntryOf(now, tb.typeSet[t]) == WithSubset(tb, EntryOf(tb, tb.typeSet[t]), tb.typeSet[d])
    ensures Lists(now, t, before + ({d as int} + under))
  {
    SetsOfUnion(tb, {d as int}, under);
    SetsOfUnion(tb, before, {d as int} + under);
    SetsOfOne(tb, d);
    assert SetsOf(now, before + ({d as int} + under)) == SetsOf(tb, before + ({d as int} + under));
  }

  /** An owner owns itself. */
  lemma {:induction false} OwnersOwn(ts: seq<TypeInfo>, t: nat)
    requires Acyclic(ts) && t < |ts|
    ensures Owner(ts, t) >= 0 ==> Owner(ts, Owner(ts, t)) == Owner(ts, t)
    decreases t
  {
    match ts[t].language
    case SameAs(u) => OwnersOwn(ts, u);
    case AliasesAll =>
    case NoOpinion => match ts[t].kind { case Vector(e) => OwnersOwn(ts, e); case _ => }
  }

  // ---- giving a type its number ----

  /** A type that is not an owner, or owns a set of its own that is new, is numbered. */
  lemma NumberedMore(ts: seq<TypeInfo>, tb: Table, now: Table, t: nat, s: nat, strict: bool)
    requires Numbered(ts, tb, strict) && t < |ts| && t !in tb.typeSet && ts[t].language.NoOpinion?
    requires now.typeSet == tb.typeSet[t := s] && |tb.sets| <= |now.sets|
    requires var d := Owner(ts, t);
      if d == t then (if strict then |tb.sets| <= s < |now.sets| && s > 0 else s == 0)
      else s == OwnerSet(tb, d) && (d >= 0 ==> d in tb.typeSet)
    ensures Numbered(ts, now, strict)
  {
    hide Owner, Acyclic, NumberedAs, OwnNumber, AllDifferent, InRange;
    forall u | u in now.typeSet ensures NumberedAs(ts, now, u) {
      if u == t { AsNow(ts, tb, now, t, s); } else { AsBefore(ts, tb, now, t, u, s); }
    }
    NumberedMoreRange(ts, tb, now, t, s, strict);
    if strict { NumberedMoreDifferent(ts, tb, now, t, s); }
  }

  lemma AsNow(ts: seq<TypeInfo>, tb: Table, now: Table, t: nat, s: nat)
    requires Acyclic(ts) && t < |ts| && now.typeSet == tb.typeSet[t := s]
    requires var d := Owner(ts, t); d == t || (s == OwnerSet(tb, d) && (d >= 0 ==> d in tb.typeSet))
    ensures NumberedAs(ts, now, t)
  {
    hide Owner, Acyclic;
  }

  lemma AsBefore(ts: seq<TypeInfo>, tb: Table, now: Table, t: nat, u: nat, s: nat)
    requires Acyclic(ts) && NumberedAs(ts, tb, u) && t !in tb.typeSet && now.typeSet == tb.typeSet[t := s]
    ensures NumberedAs(ts, now, u)
  {
    hide Owner, Acyclic;
  }

  lemma OwnBefore(ts: seq<TypeInfo>, tb: Table, now: Table, t: nat, u: nat, s: nat)
    requires Acyclic(ts) && OwnNumber(ts, now, u) && u != t && now.typeSet == tb.typeSet[t := s]
    ensures OwnNumber(ts, tb, u) && now.typeSet[u] == tb.typeSet[u]
  {
    hide Owner, Acyclic;
  }

  lemma NumberedMoreRange(ts: seq<TypeInfo>, tb: Table, now: Table, t: nat, s: nat, strict: bool)
    requires Acyclic(ts) && InRange(ts, tb, strict) && t < |ts|
    requires now.typeSet == tb.typeSet[t := s] && |tb.sets| <= |now.sets|
    requires Owner(ts, t) == t ==> if strict then |tb.sets| <= s < |now.sets| && s > 0 else s == 0
    ensures InRange(ts, now, strict)
  {
    hide Acyclic, Owner;
    forall u: nat | OwnNumber(ts, now, u)
      ensures if strict then 0 < now.typeSet[u] < |now.sets| else now.typeSet[u] == 0
    {
      if u != t { OwnBefore(ts, tb, now, t, u, s); }
    }
  }

  lemma NumberedMoreDifferent(ts: seq<TypeInfo>, tb: Table, now: Table, t: nat, s: nat)
    requires Acyclic(ts) && InRange(ts, tb, true) && AllDifferent(ts, tb) && t < |ts|
    requires now.typeSet == tb.typeSet[t := s] && (Owner(ts, t) == t ==> |tb.sets| <= s)
    ensures AllDifferent(ts, now)
  {
    hide Acyclic, Owner;
    forall u: nat, v: nat | OwnNumber(ts, now, u) && OwnNumber(ts, now, v) && u != v ensures now.typeSet[u] != now.typeSet[v] {
      if u != t { OwnBefore(ts, tb, now, t, u, s); }
      if v != t { OwnBefore(ts, tb, now, t, v, s); }
    }
  }

  ghost predicate ReadyFor(ts: seq<TypeInfo>, tb: Table, strict: bool, bound: nat) {
    Numbered(ts, tb, strict) && (strict ==> CompleteBelow(ts, tb, bound))
  }

  lemma ReadyLower(ts: seq<TypeInfo>, tb: Table, strict: bool, bound: nat, lower: nat)
    requires ReadyFor(ts, tb, strict, bound) && lower <= bound
    ensures ReadyFor(ts, tb, strict, lower) && Acyclic(ts)
  {}

  /** After a call on a lower type the ones in between are as complete as before. */
  lemma ReadyAfter(ts: seq<TypeInfo>, tb: Table, now: Table, strict: bool, lower: nat, bound: nat)
    requires ReadyFor(ts, tb, strict, bound) && lower <= bound && ReadyFor(ts, now, strict, lower) && Keeps(tb, now, lower)
    ensures ReadyFor(ts, now, strict, bound)
  {
    if strict {
      hide Owner, Inside;
      forall u: nat | OwnNumber(ts, now, u) && u < bound ensures Lists(now, u, AllInside(ts, u)) {
        if u >= lower {
          assert OwnNumber(ts, tb, u);
          ListsKept(tb, now, lower, u, AllInside(ts, u));
        }
      }
    }
  }

  lemma KeepsSelf(tb: Table, bound: nat)
    ensures Keeps(tb, tb, bound)
  {}

  lemma KeepsMore(tb: Table, now: Table, m: nat, n: nat)
    requires Keeps(tb, now, m) && m <= n
    ensures Keeps(tb, now, n)
  {}

  /** A type that does not own a set is numbered like its owner. */
  lemma NumberPlain(ts: seq<TypeInfo>, tb: Table, t: nat, s: nat, strict: bool)
    requires Acyclic(ts) && t < |ts| && ReadyFor(ts, tb, strict, t + 1) && ts[t].language.NoOpinion?
    requires Owner(ts, t) != t && s == OwnerSet(tb, Owner(ts, t)) && (Owner(ts, t) >= 0 ==> Owner(ts, t) in tb.typeSet)
    ensures var now := tb.(typeSet := tb.typeSet[t := s]);
      t !in tb.typeSet ==> ReadyFor(ts, now, strict, t + 1) && Keeps(tb, now, t + 1) && s == OwnerSet(now, Owner(ts, t))
  {
    hide Owner, Inside, Numbered, Lists, Acyclic;
    var now := tb.(typeSet := tb.typeSet[t := s]);
    if t !in tb.typeSet {
      NumberedMore(ts, tb, now, t, s, strict);
      forall u: nat | strict && OwnNumber(ts, now, u) && u < t + 1 ensures Lists(now, u, AllInside(ts, u)) {
        assert OwnNumber(ts, tb, u);
        OwnSet(ts, tb, u);
        ListsKept(tb, now, t + 1, u, AllInside(ts, u));
      }
    }
  }

  lemma OwnSet(ts: seq<TypeInfo>, tb: Table, t: nat)
    requires Numbered(ts, tb, true) && OwnNumber(ts, tb, t)
    ensures 0 < tb.typeSet[t] < |tb.sets|
  {}

  /** A type that owns a new set. */
  lemma NumberOwner(ts: seq<TypeInfo>, tb: Table, now: Table, t: nat, s: nat, strict: bool)
    requires ReadyFor(ts, tb, strict, t + 1) && Acyclic(ts) && t < |ts| && t !in tb.typeSet && Owner(ts, t) == t
    requires now.typeSet == tb.typeSet[t := s]
    requires |now.sets| >= |tb.sets| && forall x :: 0 <= x < |tb.sets| ==> now.sets[x] == tb.sets[x]
    requires if strict then |tb.sets| <= s < |now.sets| && s > 0 else s == 0
    ensures ReadyFor(ts, now, strict, t) && OwnNumber(ts, now, t) && Keeps(tb, now, t + 1)
  {
    hide Inside, Owner, Acyclic, Numbered, Lists;
    NumberedMore(ts, tb, now, t, s, strict);
    if strict {
      forall u: nat | OwnNumber(ts, now, u) && u < t ensures Lists(now, u, AllInside(ts, u)) {
        assert OwnNumber(ts, tb, u);
        OwnSet(ts, tb, u);
        ListsKept(tb, now, t + 1, u, AllInside(ts, u));
      }
    }
  }

  /** Between components: nothing but the entry of t has changed among the sets made before. */
  ghost predicate Recording(ts: seq<TypeInfo>, tb: Table, now: Table, t: nat, n: nat) {
    && ReadyFor(ts, now, true, t) && OwnNumber(ts, now, t) && t < |ts| && n <= |Components(ts, t)|
    && Lists(now, t, Inside(ts, t, n))
    && (forall u :: u in tb.typeSet ==> u in now.typeSet && now.typeSet[u] == tb.typeSet[u])
    && (forall u :: u in now.typeSet ==> u in tb.typeSet || u < t)
    && |tb.sets| <= |now.sets| && (forall x :: 0 <= x < |tb.sets| && x != now.typeSet[t] ==> now.sets[x] == tb.sets[x])
  }

  lemma RecordingCalled(ts: seq<TypeInfo>, tb: Table, was: Table, now: Table, t: nat, n: nat, c: nat)
    requires Recording(ts, tb, was, t, n) && c < t && Keeps(was, now, c + 1) && ReadyFor(ts, now, true, c + 1)
    ensures Recording(ts, tb, now, t, n)
  {
    hide Owner, Inside, ReadyFor, Lists, Acyclic;
    RecordingSizes(ts, tb, was, t, n);
    ReadyAfter(ts, was, now, true, c + 1, t);
    ListsKept(was, now, c + 1, t, Inside(ts, t, n));
  }

  lemma RecordingMore(ts: seq<TypeInfo>, tb: Table, was: Table, now: Table, t: nat, n: nat, subset: nat)
    requires Recording(ts, tb, was, t, n) && n < |Components(ts, t)|
    requires var d := ComponentOwner(ts, t, n); subset == OwnerSet(was, d) && (d >= 0 ==> d in was.typeSet)
    requires now.typeSet == was.typeSet && |now.sets| == |was.sets|
    requires var s := was.typeSet[t];
      && (forall x :: 0 <= x < |was.sets| && x != s ==> now.sets[x] == was.sets[x])
      && EntryOf(now, s) == if s == subset then EntryOf(was, s) else WithSubset(was, EntryOf(was, s), subset)
    ensures Recording(ts, tb, now, t, n + 1)
  {
    hide Inside, WithSubset, Owner, ComponentOwner, Acyclic, Lists, EntryOf, Numbered, CompleteBelow;
    RecordingSizes(ts, tb, was, t, n);
    OneMoreComponent(ts, was, now, t, n, subset);
    OthersRecorded(ts, was, now, t);
  }

  /** Changing the entry of t only leaves the others complete. */
  lemma OthersRecorded(ts: seq<TypeInfo>, was: Table, now: Table, t: nat)
    requires ReadyFor(ts, was, true, t) && OwnNumber(ts, was, t)
    requires now.typeSet == was.typeSet && |now.sets| == |was.sets|
    requires forall x :: 0 <= x < |was.sets| && x != was.typeSet[t] ==> now.sets[x] == was.sets[x]
    ensures ReadyFor(ts, now, true, t)
  {
    hide Inside, Owner, Acyclic, Lists, NumberedAs;
    forall u: nat | OwnNumber(ts, now, u) && u < t ensures Lists(now, u, AllInside(ts, u)) {
      assert OwnNumber(ts, was, u) && was.typeSet[u] != was.typeSet[t];
      OwnSet(ts, was, u);
      ListsUntouched(was, now, u, AllInside(ts, u), was.typeSet[t]);
    }
    forall u | u in now.typeSet ensures NumberedAs(ts, now, u) { AsSame(ts, was, now, u); }
  }

  lemma AsSame(ts: seq<TypeInfo>, was: Table, now: Table, u: nat)
    requires Acyclic(ts) && NumberedAs(ts, was, u) && now.typeSet == was.typeSet
    ensures NumberedAs(ts, now, u)
  {
    hide Owner, Acyclic;
  }

  lemma ListsUntouched(was: Table, now: Table, u: nat, ds: set<int>, s: nat)
    requires Lists(was, u, ds) && now.typeSet == was.typeSet && |now.sets| == |was.sets| && was.typeSet[u] != s
    requires forall x :: 0 <= x < |was.sets| && x != s ==> now.sets[x] == was.sets[x]
    ensures Lists(now, u, ds)
  {
    assert SetsOf(now, ds) == SetsOf(was, ds);
  }

  lemma RecordingDone(ts: seq<TypeInfo>, tb: Table, now: Table, t: nat)
    requires Acyclic(ts) && t < |ts| && Recording(ts, tb, now, t, |Components(ts, t)|)
    ensures ReadyFor(ts, now, true, t + 1)
  {
    hide Inside, Owner;
  }

  lemma ReadyKnown(ts: seq<TypeInfo>, tb: Table, t: nat, strict: bool)
    requires ReadyFor(ts, tb, strict, t + 1) && t in tb.typeSet
    ensures Acyclic(ts) && NumberedAs(ts, tb, t)
  {}

  /** Without strict aliasing there is nothing to list. */
  lemma ReadyZero(ts: seq<TypeInfo>, tb: Table, t: nat, strict: bool)
    requires ReadyFor(ts, tb, strict, t) && OwnNumber(ts, tb, t) && tb.typeSet[t] == 0
    ensures !strict && ReadyFor(ts, tb, strict, t + 1)
  {}

  lemma RecordedKeeps(tb: Table, was: Table, now: Table, t: nat)
    requires Keeps(tb, was, t + 1) && t !in tb.typeSet && t in was.typeSet && |tb.sets| <= was.typeSet[t]
    requires (forall u :: u in was.typeSet ==> u in now.typeSet && now.typeSet[u] == was.typeSet[u])
    requires (forall u :: u in now.typeSet ==> u in was.typeSet || u < t)
    requires |was.sets| <= |now.sets| && (forall x :: 0 <= x < |was.sets| && x != now.typeSet[t] ==> now.sets[x] == was.sets[x])
    ensures Keeps(tb, now, t + 1)
  {}

  lemma KeepsNot(tb: Table, now: Table, t: nat)
    requires Keeps(tb, now, t) && t !in tb.typeSet
    ensures t !in now.typeSet
  {}

  lemma NothingRecorded(ts: seq<TypeInfo>, tb: Table, t: nat)
    requires ReadyFor(ts, tb, true, t) && OwnNumber(ts, tb, t) && EntryOf(tb, tb.typeSet[t]) == Entry({}, false)
    ensures Recording(ts, tb, tb, t, 0)
  {}

  lemma RecordingSizes(ts: seq<TypeInfo>, tb: Table, now: Table, t: nat, n: nat)
    requires Recording(ts, tb, now, t, n)
    ensures Acyclic(ts) && t < |ts| && OwnNumber(ts, now, t) && ReadyFor(ts, now, true, t) && 0 < now.typeSet[t] < |now.sets|
    ensures n < |Components(ts, t)| ==> Components(ts, t)[n] < t
    ensures (forall u :: u in tb.typeSet ==> u in now.typeSet && now.typeSet[u] == tb.typeSet[u])
    ensures (forall u :: u in now.typeSet ==> u in tb.typeSet || u < t)
    ensures |tb.sets| <= |now.sets| && (forall x :: 0 <= x < |tb.sets| && x != now.typeSet[t] ==> now.sets[x] == tb.sets[x])
  {}

  lemma SubsetInside(ts: seq<TypeInfo>, tb: Table, c: nat, strict: bool, bound: nat)
    requires ReadyFor(ts, tb, strict, bound) && Acyclic(ts) && c < |ts| && tb.sets != []
    requires Owner(ts, c) >= 0 ==> Owner(ts, c) in tb.typeSet
    ensures OwnerSet(tb, Owner(ts, c)) < |tb.sets|
  {
    OwnersOwn(ts, c);
    if Owner(ts, c) >= 0 { assert strict ==> OwnNumber(ts, tb, Owner(ts, c)); }
  }

  function TableOf(sets: seq<Option<Entry>>): Table {
    Table(sets, map[])
  }

  /** What a lookup in the entry of d1 finds. */
  lemma EntryMeaning(ts: seq<TypeInfo>, tb: Table, d1: nat, d2: nat)
    requires ReadyFor(ts, tb, true, |ts|) && OwnNumber(ts, tb, d1) && OwnNumber(ts, tb, d2)
    ensures EntryOf(tb, tb.typeSet[d1]).hasZeroChild <==> Contains(ts, d1, ZERO_SET)
    ensures d1 != d2 ==> (tb.typeSet[d2] in EntryOf(tb, tb.typeSet[d1]).children <==> Contains(ts, d1, d2))
    ensures tb.typeSet[d1] > 0 && tb.typeSet[d2] > 0 && (tb.typeSet[d1] == tb.typeSet[d2] <==> d1 == d2)
  {
    assert Lists(tb, d1, AllInside(ts, d1));
    InsideIsContains(ts, d1, ZERO_SET);
    InsideIsContains(ts, d1, d2);
    InsideOwners(ts, d1, |Components(ts, d1)|);
    hide Inside, Owner, Contains;
    var ds := AllInside(ts, d1);
    if tb.typeSet[d2] in SetsOf(tb, ds) {
      var d :| d in ds && d >= 0 && d in tb.typeSet && tb.typeSet[d] == tb.typeSet[d2];
      assert OwnNumber(ts, tb, d);
    }
  }

  /** All that is inside a type is an owner. */
  lemma {:induction false} InsideOwners(ts: seq<TypeInfo>, t: nat, n: nat)
    requires Acyclic(ts) && t < |ts| && n <= |Components(ts, t)|
    ensures forall d :: d in Inside(ts, t, n) && d >= 0 ==> d < |ts| && Owner(ts, d) == d
    decreases t, n
  {
    if n > 0 {
      InsideOwners(ts, t, n - 1);
      var d := ComponentOwner(ts, t, n - 1);
      OwnersOwn(ts, Components(ts, t)[n - 1]);
      InsideGrows(ts, t, n - 1);
      if d >= 0 { InsideOwners(ts, d, |Components(ts, d)|); }
    }
  }

  class AliasTable {
    const types: seq<TypeInfo>
    const strict: bool              // flag_strict_aliasing
    var sets: seq<Option<Entry>>    // alias_sets
    var typeSet: map<nat, nat>      // TYPE_ALIAS_SET, where it is known

    constructor (ts: seq<TypeInfo>, strictAliasing: bool)
      requires Acyclic(ts)
      ensures types == ts && strict == strictAliasing && T() == Table([], map[]) && Valid()
    {
      types, strict := ts, strictAliasing;
      sets, typeSet := [], map[];
    }

    ghost function T(): Table
      reads this`sets, this`typeSet
    {
      Table(sets, typeSet)
    }

    ghost predicate Ready(bound: nat)
      reads this`sets, this`typeSet
    {
      ReadyFor(types, T(), strict, bound)
    }

    ghost predicate Valid()
      reads this`sets, this`typeSet
    {
      Ready(|types|)
    }

    /** new_alias_set */
    method NewAliasSet() returns (s: nat)
      modifies this`sets
      ensures |sets| >= |old(sets)| && forall x :: 0 <= x < |old(sets)| ==> sets[x] == old(sets)[x]
      ensures if strict then |old(sets)| <= s < |sets| && s > 0 && EntryOf(T(), s) == Entry({}, false) else s == 0
    {
      if strict {
        if sets == [] { sets := [None]; }
        sets := sets + [None];
        s := |sets| - 1;
      } else {
        s := 0;
      }
    }

    /** record_alias_subset */
    method RecordAliasSubset(superset: nat, subset: nat)
      requires 0 < superset < |sets| && subset < |sets|
      modifies this`sets
      ensures |sets| == |old(sets)| && forall x :: 0 <= x < |sets| && x != superset ==> sets[x] == old(sets)[x]
      ensures EntryOf(T(), superset) ==
        if superset == subset then EntryOf(old(T()), superset) else WithSubset(old(T()), EntryOf(old(T()), superset), subset)
    {
      // It is possible for both sets to be the same.
      if superset == subset { return; }
      if sets[superset].None? {
        sets := sets[superset := Some(Entry({}, false))];
      }
      var e := sets[superset].value;
      if subset == 0 {
        e := e.(hasZeroChild := true);
      } else {
        if sets[subset].Some? {
          if sets[subset].value.hasZeroChild { e := e.(hasZeroChild := true); }
          e := e.(children := e.children + sets[subset].value.children);
        }
        e := e.(children := e.children + {subset});
      }
      sets := sets[superset := Some(e)];
    }

    /** get_alias_set, for a type. It has the set of its owner; sets known before stay as they are. */
    method GetAliasSet(t: nat) returns (s: nat)
      requires t < |types| && Ready(t + 1)
      modifies this
      ensures Ready(t + 1) && Keeps(old(T()), T(), t + 1)
      ensures s == OwnerSet(T(), Owner(types, t)) && (Owner(types, t) >= 0 ==> Owner(types, t) in typeSet)
      ensures types[t].language.NoOpinion? ==> t in typeSet && typeSet[t] == s
      decreases t, 3
    {
      hide ReadyFor, Keeps, Recording;
      ghost var tb := T();
      ReadyLower(types, tb, strict, t + 1, t);
      KeepsSelf(tb, t + 1);
      if t in typeSet {
        ReadyKnown(types, tb, t, strict);
        return typeSet[t];
      }
      match types[t].language {
        case AliasesAll => return 0;
        case SameAs(u) =>
          s := GetLower(u, t);
          KeepsMore(tb, T(), t, t + 1);
        case NoOpinion =>
          match types[t].kind {
            case Function =>
              s := 0;
              NumberPlain(types, tb, t, s, strict);
              typeSet := typeSet[t := s];
            case Vector(e) =>
              s := GetLower(e, t);
              ghost var q := T();
              NumberPlain(types, q, t, s, strict);
              typeSet := typeSet[t := s];
              KeepsTwice(tb, q, T(), t, t + 1);
            case _ =>
              s := NewAliasSet();
              typeSet := typeSet[t := s];
              NumberOwner(types, tb, T(), t, s, strict);
              ghost var q := T();
              if s == 0 {
                ReadyZero(types, q, t, strict);
              } else {
                RecordComponentAliases(t);
                RecordingSizes(types, q, T(), t, |Components(types, t)|);
                RecordedKeeps(tb, q, T(), t);
              }
          }
      }
    }

    /** get_alias_set for a type that t is made of. */
    method GetLower(u: nat, ghost t: nat) returns (s: nat)
      requires u < t < |types| && Ready(t + 1) && t !in typeSet
      modifies this
      ensures Ready(t + 1) && Keeps(old(T()), T(), t) && t !in typeSet
      ensures s == OwnerSet(T(), Owner(types, u)) && (Owner(types, u) >= 0 ==> Owner(types, u) in typeSet)
      decreases t, 0
    {
      hide ReadyFor, Keeps;
      ghost var tb := T();
      ReadyLower(types, tb, strict, t + 1, u + 1);
      s := GetAliasSet(u);
      ReadyAfter(types, tb, T(), strict, u + 1, t + 1);
      KeepsMore(tb, T(), u + 1, t);
      KeepsNot(tb, T(), t);
    }

    /** One call of record_alias_subset with the set of a component. */
    method RecordComponent(t: nat, c: nat, ghost i: nat, ghost tb: Table)
      requires t < |types| && strict && Acyclic(types) && i < |Components(types, t)| && Components(types, t)[i] == c
      requires Recording(types, tb, T(), t, i)
      modifies this
      ensures Recording(types, tb, T(), t, i + 1)
      decreases t, 0
    {
      hide ReadyFor, Keeps, Recording, Inside, Components;
      RecordingSizes(types, tb, T(), t, i);
      ghost var was := T();
      ReadyLower(types, was, strict, t, c + 1);
      var subset := GetAliasSet(c);
      RecordingCalled(types, tb, was, T(), t, i, c);
      RecordingSizes(types, tb, T(), t, i);
      ghost var now := T();
      SubsetInside(types, now, c, strict, c + 1);
      RecordAliasSubset(typeSet[t], subset);
      RecordingMore(types, tb, now, T(), t, i, subset);
    }

    /** The loops over base classes and fields. */
    method RecordRecord(t: nat, bases: seq<nat>, fields: seq<Field>, ghost tb: Table)
      requires t < |types| && strict && Acyclic(types) && types[t].kind == Record(bases, fields) && Recording(types, tb, T(), t, 0)
      modifies this
      ensures Recording(types, tb, T(), t, |Components(types, t)|)
      decreases t, 1
    {
      hide ReadyFor, Keeps, Recording, Inside, Owner, Acyclic, Addressable;
      RecordComponents(types, t, bases, fields);
      NoFields();
      for i := 0 to |bases|
        invariant Recording(types, tb, T(), t, i)
      {
        RecordComponent(t, bases[i], i, tb);
      }
      for i := 0 to |fields|
        invariant Recording(types, tb, T(), t, |bases| + |Addressable(fields[..i])|)
      {
        AddressableNext(fields, i);
        AddressablePrefix(fields, i + 1);
        if fields[i].addressable {
          ghost var k := |Addressable(fields[..i])|;
          assert Addressable(fields)[k] == Addressable(fields[..i + 1])[k];
          RecordComponent(t, fields[i].ofType, |bases| + k, tb);
        }
      }
      assert fields[..|fields|] == fields;
    }

    /** record_component_aliases. The set of the type itself is known by now, and not zero. */
    method RecordComponentAliases(t: nat)
      requires t < |types| && strict && Ready(t) && Acyclic(types) && OwnNumber(types, T(), t)
      requires EntryOf(T(), typeSet[t]) == Entry({}, false)
      modifies this
      ensures Ready(t + 1) && OwnNumber(types, T(), t)
      ensures Recording(types, old(T()), T(), t, |Components(types, t)|)
      decreases t, 2
    {
      hide ReadyFor, Keeps, Recording, Inside;
      ghost var tb := T();
      NothingRecorded(types, tb, t);
      match types[t].kind {
        case Array(element, nonaliased) =>
          if !nonaliased { RecordComponent(t, element, 0, tb); }
        case Record(bases, fields) =>
          RecordRecord(t, bases, fields, tb);
        case Complex(element) =>
          RecordComponent(t, element, 0, tb);
        case _ =>
      }
      RecordingDone(types, tb, T(), t);
      RecordingSizes(types, tb, T(), t, |Components(types, t)|);
    }

    /** get_alias_set as called from outside. Calls never change the set of a type that has one. */
    method AliasSetOf(t: nat) returns (s: nat)
      requires t < |types| && Valid()
      modifies this
      ensures Valid() && SetOf(t, s)
      ensures forall u, x :: old(SetOf(u, x)) ==> SetOf(u, x)
    {
      hide ReadyFor;
      ghost var tb := T();
      ReadyLower(types, tb, strict, |types|, t + 1);
      s := GetAliasSet(t);
      ReadyAfter(types, tb, T(), strict, t + 1, |types|);
    }

    /** Type t has been given the alias set s. */
    ghost predicate SetOf(t: nat, s: nat)
      reads this`sets, this`typeSet
    {
      && Acyclic(types) && t < |types|
      && s == OwnerSet(T(), Owner(types, t)) && (Owner(types, t) >= 0 ==> Owner(types, t) in typeSet)
    }

    /** The one-level lookup in the flattened table decides what it is for: two types conflict iff one of them aliases
        everything, they have the same owner, or one contains the other, or a type that aliases everything, at any depth. */
    lemma ConflictMeaning(t1: nat, s1: nat, t2: nat, s2: nat)
      requires Valid() && strict && SetOf(t1, s1) && SetOf(t2, s2)
      ensures AliasSetsConflictP(s1, s2) <==>
        var d1, d2 := Owner(types, t1), Owner(types, t2);
        || d1 == ZERO_SET || d2 == ZERO_SET || d1 == d2
        || Contains(types, d1, d2) || Contains(types, d1, ZERO_SET) || Contains(types, d2, d1) || Contains(types, d2, ZERO_SET)
    {
      var d1, d2 := Owner(types, t1), Owner(types, t2);
      OwnersOwn(types, t1);
      OwnersOwn(types, t2);
      if d1 >= 0 && d2 >= 0 {
        EntryMeaning(types, T(), d1, d2);
        EntryMeaning(types, T(), d2, d1);
      }
    }

    /** A type conflicts with each of its parts. */
    lemma PartConflicts(t: nat, s: nat, c: nat, x: nat)
      requires Valid() && strict && SetOf(t, s) && SetOf(c, x)
      requires types[t].language.NoOpinion? && !types[t].kind.Function? && !types[t].kind.Vector? && Part(types, t, c) && c < t
      ensures AliasSetsConflictP(s, x)
    {
      hide Contains;
      ConflictMeaning(t, s, c, x);
      DirectMeaning(types, t, Owner(types, c));
      OneStep(types, t, Owner(types, c));
    }

    /** Which types share a set: vectors and what they are made of, types the language treats alike, and with set zero
        functions and what aliases everything. All others have a set of their own. */
    lemma SharedSets(t: nat, s: nat, u: nat, x: nat)
      requires Valid() && SetOf(t, s) && SetOf(u, x)
      ensures types[t].language.AliasesAll? ==> s == 0
      ensures types[t].language == SameAs(u) ==> s == x
      ensures types[t].language.NoOpinion? && types[t].kind.Function? ==> s == 0
      ensures types[t].language.NoOpinion? && types[t].kind == Vector(u) ==> s == x
      ensures strict && OwnsSet(t) ==> s > 0 && (OwnsSet(u) && t != u ==> s != x)
      ensures !strict ==> s == 0
    {
      OwnersOwn(types, t);
      if Owner(types, t) >= 0 { assert OwnNumber(types, T(), Owner(types, t)); }
      if strict && OwnsSet(t) && OwnsSet(u) && t != u {
        assert OwnNumber(types, T(), t) && OwnNumber(types, T(), u);
      }
    }

    predicate OwnsSet(t: nat) {
      t < |types| && types[t].language.NoOpinion? && !types[t].kind.Function? && !types[t].kind.Vector?
    }

    /** alias_sets_conflict_p */
    predicate AliasSetsConflictP(set1: nat, set2: nat)
      reads this`sets
    {
      || set1 == 0 || set2 == 0 || set1 == set2
      || EntryOf(TableOf(sets), set1).hasZeroChild || set2 in EntryOf(TableOf(sets), set1).children
      || EntryOf(TableOf(sets), set2).hasZeroChild || set1 in EntryOf(TableOf(sets), set2).children
    }
  }
}
