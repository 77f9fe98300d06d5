/** What gen_type of c-aux-info.c builds around a declarator, and which type the declaration then has. */
module TypePrinting {
  import opened Declarators

  // ---- the type of a declaration ----

  function WordsOf(ss: seq<Specifier>): seq<string> {
    if ss == [] then []
    else (match ss[0]
          case Qualified(_) => []
          case TypeWord(w) => [w]
          case Tagged(k, t) => [k, t]) + WordsOf(ss[1..])
  }

  function SetOf(qs: seq<Qualifier>): Quals {
    Quals(Const in qs, Volatile in qs, Restrict in qs)
  }

  function QualsOf(ss: seq<Specifier>): Quals {
    Quals(Qualified(Const) in ss, Qualified(Volatile) in ss, Qualified(Restrict) in ss)
  }

  const VOID_DECLARATION: Declaration := Declaration([TypeWord("void")], Abstract)

  /** The type a declarator gives to what it declares, from the type before it. */
  function Apply(t: Type, d: Declarator): Type
    decreases d
  {
    match d
    case Abstract => t
    case Name(_) => t
    case Ptr(qs, i) => Apply(Pointer(t, SetOf(qs)), i)
    case Paren(i) => Apply(t, i)
    case Arr(i, c) => Apply(Array(t, c, PLAIN), i)
    case Fun(i, ps) =>
      Apply(Function(t, if ps == Param(VOID_DECLARATION, NoMore) then VoidEnd else if ps.NoMore? then End else ChainOf(ps), PLAIN), i)
  }

  function TypeOf(d: Declaration): Type
    decreases d
  {
    Apply(Named(WordsOf(d.specs), QualsOf(d.specs)), d.declarator)
  }

  function ChainOf(ps: Params): Chain
    decreases ps
  {
    match ps
    case NoMore => VoidEnd
    case AndMore => End
    case Param(d, rest) => Arg(TypeOf(d), ChainOf(rest))
  }

  // ---- gen_type ----

  /** The code of the type, behind a typedef too, is an array or a function: a pointer to it is parenthesised. */
  predicate Suffixed(types: Types, t: Type) {
    match t
    case Named(words, _) => |words| == 1 && words[0] in types && types[words[0]]
    case Pointer(_, _) => false
    case _ => true
  }

  /** The qualifiers in front, as the three tests at the end of gen_type put them there. */
  function InFront(q: Quals): seq<Qualifier> {
    (if q.isRestrict then [Restrict] else []) + (if q.isVolatile then [Volatile] else []) + (if q.isConst then [Const] else [])
  }

  /** The qualifiers of a pointer; restrict is not among them. */
  function OfPointer(q: Quals): seq<Qualifier> {
    (if q.isVolatile then [Volatile] else []) + (if q.isConst then [Const] else [])
  }

  /** The text under way: qualifiers in front of a declarator. */
  datatype Seed = Seed(front: seq<Qualifier>, d: Declarator)

  /** gen_type on the seed; what it adds to it before and behind. */
  function Gen(types: Types, s: Seed, t: Type): Seed
    decreases t, 0
  {
    match t
    case Named(_, q) => Seed(InFront(q) + s.front, s.d)
    case Pointer(to, q) =>
      var p := Ptr(OfPointer(q) + s.front, s.d);
      Gen(types, Seed([], if Suffixed(types, to) then Paren(p) else p), to)
    case Array(e, c, q) =>
      var r := Gen(types, Seed(s.front, Arr(s.d, c)), e);
      Seed(InFront(q) + r.front, r.d)
    case Function(res, args, q) =>
      var r := Gen(types, Seed(s.front, Fun(s.d, Formals(types, args))), res);
      Seed(InFront(q) + r.front, r.d)
  }

  /** The words gen_type leaves in data_type. */
  function Base(t: Type): seq<string> {
    match t
    case Named(words, _) => words
    case Pointer(to, _) => Base(to)
    case Array(e, _, _) => Base(e)
    case Function(res, _, _) => Base(res)
  }

  function WordSpecs(words: seq<string>): seq<Specifier> {
    if |words| == 2 && IsTagKey(words[0]) then [Tagged(words[0], words[1])] else AllWords(words)
  }

  function AllWords(words: seq<string>): seq<Specifier> {
    if words == [] then [] else [TypeWord(words[0])] + AllWords(words[1..])
  }

  function QualSpecs(qs: seq<Qualifier>): seq<Specifier> {
    if qs == [] then [] else [Qualified(qs[0])] + QualSpecs(qs[1..])
  }

  /** How many const and volatile are at the front. */
  function Leading(qs: seq<Qualifier>): (n: nat)
    ensures n <= |qs|
  {
    if qs == [] || qs[0] == Restrict then 0 else 1 + Leading(qs[1..])
  }

  /** affix_data_type: the data type goes behind the leading const and volatile. */
  function Affix(words: seq<string>, s: Seed): Declaration {
    var k := Leading(s.front);
    Declaration(QualSpecs(s.front[..k]) + WordSpecs(words) + QualSpecs(s.front[k..]), s.d)
  }

  function Formal(types: Types, t: Type): Declaration
    decreases t, 1
  {
    Affix(Base(t), Gen(types, Seed([], Abstract), t))
  }

  /** gen_formal_list_for_type */
  function Formals(types: Types, args: Chain): Params
    decreases args
  {
    match args
    case End => NoMore
    case VoidEnd => Param(VOID_DECLARATION, NoMore)
    case Arg(t, rest) => Param(Formal(types, t), MoreFormals(types, rest))
  }

  function MoreFormals(types: Types, args: Chain): Params
    decreases args
  {
    match args
    case End => AndMore
    case VoidEnd => NoMore
    case Arg(t, rest) => Param(Formal(types, t), MoreFormals(types, rest))
  }

  // ---- what the text says ----

  /** q added to the type named at the bottom. */
  function Onto(t: Type, q: Quals): Type {
    match t
    case Named(words, p) => Named(words, Both(q, p))
    case Pointer(to, p) => Pointer(Onto(to, q), p)
    case Array(e, c, p) => Array(Onto(e, q), c, p)
    case Function(r, args, p) => Function(Onto(r, q), args, p)
  }

  /**
   * The type the printed text declares: restrict on a pointer is gone, and the qualifiers of an array or a function
   * type are those of the type named at the bottom.
   */
  function Seen(t: Type): Type {
    match t
    case Named(_, _) => t
    case Pointer(to, q) => Pointer(Seen(to), q.(isRestrict := false))
    case Array(e, c, q) => Array(Onto(Seen(e), q), c, PLAIN)
    case Function(r, args, q) => Function(Onto(Seen(r), q), SeenChain(args), PLAIN)
  }

  function SeenChain(args: Chain): Chain {
    match args
    case Arg(t, rest) => Arg(Seen(t), SeenChain(rest))
    case _ => args
  }

  /** What gets through unchanged. */
  predicate Printable(t: Type) {
    match t
    case Named(_, _) => true
    case Pointer(to, q) => !q.isRestrict && Printable(to)
    case Array(e, _, q) => q == PLAIN && Printable(e)
    case Function(r, args, q) => q == PLAIN && Printable(r) && PrintableChain(args)
  }

  predicate PrintableChain(args: Chain) {
    args.Arg? ==> Printable(args.head) && PrintableChain(args.tail)
  }

  /** The text gives the type back exactly when nothing in it is lost. */
  lemma {:induction false} SeenIffPrintable(t: Type)
    ensures Seen(t) == t <==> Printable(t)
  {
    match t
    case Named(_, _) =>
    case Pointer(to, q) => SeenIffPrintable(to);
    case Array(e, _, q) =>
      SeenIffPrintable(e);
      OntoPlain(Seen(e));
    case Function(r, args, q) =>
      SeenIffPrintable(r);
      OntoPlain(Seen(r));
      SeenChainIffPrintable(args);
  }

  lemma {:induction false} SeenChainIffPrintable(args: Chain)
    ensures SeenChain(args) == args <==> PrintableChain(args)
  {
    if args.Arg? {
      SeenIffPrintable(args.head);
      SeenChainIffPrintable(args.tail);
    }
  }

  lemma {:induction false} OntoPlain(t: Type)
    ensures Onto(t, PLAIN) == t
  {
    match t
    case Named(_, _) =>
    case Pointer(to, _) => OntoPlain(to);
    case Array(e, _, _) => OntoPlain(e);
    case Function(r, _, _) => OntoPlain(r);
  }

  /** A restrict-qualified pointer is printed like a plain one. */
  lemma RestrictLost()
    ensures var t := Pointer(Named(["int"], PLAIN), Quals(false, false, true)); Seen(t) == Pointer(Named(["int"], PLAIN), PLAIN) != t
  {}

  /** Qualifiers in front of a declarator: those of a pointer, or of the elements, or of the result. */
  function Push(t: Type, q: Quals): Type {
    match t
    case Named(words, p) => Named(words, Both(p, q))
    case Pointer(to, p) => Pointer(to, Both(p, q))
    case Array(e, c, p) => Array(Push(e, q), c, p)
    case Function(r, args, p) => Function(Push(r, q), args, p)
  }

  /** The types that are printed by words the parser knows, with no argument that would end the chain. */
  predicate Known(types: Types, words: seq<string>) {
    if |words| == 2 && IsTagKey(words[0]) then IsIdentifier(words[1]) else words != [] && forall w :: w in words ==> w in types
  }

  predicate WellFormed(types: Types, t: Type) {
    match t
    case Named(words, _) => Known(types, words)
    case Pointer(to, _) => WellFormed(types, to)
    case Array(e, _, _) => WellFormed(types, e)
    case Function(r, args, _) => WellFormed(types, r) && WellFormedChain(types, args)
  }

  predicate WellFormedChain(types: Types, args: Chain) {
    args.Arg? ==> WellFormed(types, args.head) && args.head != Named(["void"], PLAIN) && WellFormedChain(types, args.tail)
  }

  // ---- the declaration means the type ----

  lemma {:induction false} ApplyOnto(t: Type, q: Quals, d: Declarator)
    ensures Apply(Onto(t, q), d) == Onto(Apply(t, d), q)
    decreases d
  {
    match d
    case Abstract =>
    case Name(_) =>
    case Ptr(qs, i) => ApplyOnto(Pointer(t, SetOf(qs)), q, i);
    case Paren(i) => ApplyOnto(t, q, i);
    case Arr(i, c) => ApplyOnto(Array(t, c, PLAIN), q, i);
    case Fun(i, ps) =>
      ApplyOnto(Function(t, if ps == Param(VOID_DECLARATION, NoMore) then VoidEnd else if ps.NoMore? then End else ChainOf(ps), PLAIN), q, i);
  }

  lemma SetOfFront(q: Quals, qs: seq<Qualifier>)
    ensures SetOf(InFront(q) + qs) == Both(q, SetOf(qs))
    ensures Restrict !in qs ==> SetOf(OfPointer(q) + qs) == Both(q, SetOf(qs)).(isRestrict := false)
  {}

  /** From the data type, what gen_type has built declares the type it was given. */
  lemma {:induction false} GenMeaning(types: Types, s: Seed, t: Type)
    requires GoodTypes(types) && WellFormed(types, t) && Restrict !in s.front
    ensures var r := Gen(types, s, t);
      Apply(Named(Base(t), SetOf(r.front)), r.d) == Apply(Seen(Push(t, SetOf(s.front))), s.d)
    decreases t, 0
  {
    hide GoodTypes, Known, Formals, Suffixed, SetOf, InFront, OfPointer;
    match t
    case Named(words, q) =>
      SetOfFront(q, s.front);
    case Pointer(to, q) =>
      var p := Ptr(OfPointer(q) + s.front, s.d);
      GenMeaning(types, Seed([], if Suffixed(types, to) then Paren(p) else p), to);
      SetOfFront(q, s.front);
      PushNone(to);
    case Array(e, c, q) =>
      var r := Gen(types, Seed(s.front, Arr(s.d, c)), e);
      GenMeaning(types, Seed(s.front, Arr(s.d, c)), e);
      SetOfFront(q, r.front);
      ApplyOnto(Named(Base(t), SetOf(r.front)), q, r.d);
      ApplyOnto(Seen(Push(e, SetOf(s.front))), q, Arr(s.d, c));
    case Function(res, args, q) =>
      var ps := Formals(types, args);
      var r := Gen(types, Seed(s.front, Fun(s.d, ps)), res);
      GenMeaning(types, Seed(s.front, Fun(s.d, ps)), res);
      SetOfFront(q, r.front);
      ApplyOnto(Named(Base(t), SetOf(r.front)), q, r.d);
      ApplyOnto(Seen(Push(res, SetOf(s.front))), q, Fun(s.d, ps));
      FormalsMeaning(types, args);
  }

  lemma {:induction false} PushNone(t: Type)
    ensures Push(t, SetOf([])) == t
  {
    match t
    case Named(_, _) =>
    case Pointer(to, _) =>
    case Array(e, _, _) => PushNone(e);
    case Function(r, _, _) => PushNone(r);
  }

  lemma {:induction false} QualSpecsOf(qs: seq<Qualifier>)
    ensures WordsOf(QualSpecs(qs)) == [] && QualsOf(QualSpecs(qs)) == SetOf(qs)
  {
    if qs != [] {
      QualSpecsOf(qs[1..]);
      assert qs == [qs[0]] + qs[1..];
    }
  }

  lemma {:induction false} AllWordsOf(words: seq<string>)
    ensures WordsOf(AllWords(words)) == words && QualsOf(AllWords(words)) == PLAIN
  {
    if words != [] {
      AllWordsOf(words[1..]);
      assert words == [words[0]] + words[1..];
    }
  }

  lemma {:induction false} WordsOfSum(a: seq<Specifier>, b: seq<Specifier>)
    ensures WordsOf(a + b) == WordsOf(a) + WordsOf(b)
  {
    hide WordsOf;
    if a == [] {
      WordsOfNone();
      assert a + b == b && [] + WordsOf(b) == WordsOf(b);
    } else {
      WordsOfSum(a[1..], b);
      WordsOfMore(a);
      WordsOfMore(a + b);
      assert (a + b)[1..] == a[1..] + b;
    }
  }

  lemma WordsOfNone()
    ensures WordsOf([]) == []
  {}

  lemma WordsOfMore(a: seq<Specifier>)
    requires a != []
    ensures WordsOf(a) == (match a[0] case Qualified(_) => [] case TypeWord(w) => [w] case Tagged(k, t) => [k, t]) + WordsOf(a[1..])
  {}

  lemma QualsOfSum(a: seq<Specifier>, b: seq<Specifier>)
    ensures QualsOf(a + b) == Both(QualsOf(a), QualsOf(b))
  {}

  lemma WordSpecsOf(words: seq<string>)
    ensures WordsOf(WordSpecs(words)) == words && QualsOf(WordSpecs(words)) == PLAIN
  {
    AllWordsOf(words);
    if |words| == 2 { assert words == [words[0], words[1]]; }
  }

  lemma SetOfParts(qs: seq<Qualifier>, k: nat)
    requires k <= |qs|
    ensures SetOf(qs) == Both(Both(SetOf(qs[..k]), PLAIN), SetOf(qs[k..]))
  {
    assert qs == qs[..k] + qs[k..];
  }

  /** Where the data type is inserted does not matter for the type. */
  lemma AffixMeaning(words: seq<string>, s: Seed)
    ensures TypeOf(Affix(words, s)) == Apply(Named(words, SetOf(s.front)), s.d)
  {
    hide WordsOf, QualsOf, SetOf, WordSpecs, QualSpecs, Apply, Both;
    var k := Leading(s.front);
    var a, w, b := QualSpecs(s.front[..k]), WordSpecs(words), QualSpecs(s.front[k..]);
    QualSpecsOf(s.front[..k]);
    QualSpecsOf(s.front[k..]);
    WordSpecsOf(words);
    WordsOfSum(a + w, b);
    WordsOfSum(a, w);
    QualsOfSum(a + w, b);
    QualsOfSum(a, w);
    SetOfParts(s.front, k);
    assert [] + words + [] == words;
  }

  lemma {:induction false} FormalMeaning(types: Types, t: Type)
    requires GoodTypes(types) && WellFormed(types, t)
    ensures TypeOf(Formal(types, t)) == Seen(t)
    decreases t, 1
  {
    GenMeaning(types, Seed([], Abstract), t);
    AffixMeaning(Base(t), Gen(types, Seed([], Abstract), t));
    PushNone(t);
  }

  lemma {:induction false} MoreFormalsMeaning(types: Types, args: Chain)
    requires GoodTypes(types) && WellFormedChain(types, args)
    ensures ChainOf(MoreFormals(types, args)) == SeenChain(args)
    decreases args
  {
    if args.Arg? {
      FormalMeaning(types, args.head);
      MoreFormalsMeaning(types, args.tail);
    }
  }

  lemma {:induction false} FormalsMeaning(types: Types, args: Chain)
    requires GoodTypes(types) && WellFormedChain(types, args)
    ensures var ps := Formals(types, args);
      (if ps == Param(VOID_DECLARATION, NoMore) then VoidEnd else if ps.NoMore? then End else ChainOf(ps)) == SeenChain(args)
    decreases args
  {
    if args.Arg? {
      FormalMeaning(types, args.head);
      MoreFormalsMeaning(types, args.tail);
      if Formal(types, args.head) == VOID_DECLARATION {
        VoidMeans();
        OnlyVoid(args.head);
      }
    }
  }

  lemma VoidMeans()
    ensures TypeOf(VOID_DECLARATION) == Named(["void"], PLAIN)
  {}

  lemma OnlyVoid(t: Type)
    requires Seen(t) == Named(["void"], PLAIN)
    ensures t == Named(["void"], PLAIN)
  {}

  // ---- the declaration is one of the grammar ----

  lemma {:induction false} GenValid(types: Types, s: Seed, t: Type)
    requires GoodTypes(types) && WellFormed(types, t) && Valid(types, s.d) && (Suffixed(types, t) ==> !s.d.Ptr?)
    ensures Valid(types, Gen(types, s, t).d)
    decreases t, 0
  {
    hide GoodTypes, IsIdentifier, Declarable;
    match t
    case Named(_, _) =>
    case Pointer(to, q) =>
      var p := Ptr(OfPointer(q) + s.front, s.d);
      GenValid(types, Seed([], if Suffixed(types, to) then Paren(p) else p), to);
    case Array(e, c, q) =>
      GenValid(types, Seed(s.front, Arr(s.d, c)), e);
    case Function(res, args, q) =>
      FormalsValid(types, args);
      GenValid(types, Seed(s.front, Fun(s.d, Formals(types, args))), res);
  }

  lemma {:induction false} BaseKnown(types: Types, t: Type)
    requires WellFormed(types, t)
    ensures Known(types, Base(t))
  {
    match t
    case Named(_, _) =>
    case Pointer(to, _) => BaseKnown(types, to);
    case Array(e, _, _) => BaseKnown(types, e);
    case Function(r, _, _) => BaseKnown(types, r);
  }

  predicate ValidSpecs(types: Types, ss: seq<Specifier>) {
    forall s :: s in ss ==> ValidSpec(types, s)
  }

  lemma {:induction false} QualSpecsValid(types: Types, qs: seq<Qualifier>)
    ensures ValidSpecs(types, QualSpecs(qs))
  {
    if qs != [] { QualSpecsValid(types, qs[1..]); }
  }

  lemma {:induction false} AllWordsValid(types: Types, words: seq<string>)
    requires forall w :: w in words ==> w in types
    ensures ValidSpecs(types, AllWords(words))
  {
    if words != [] { AllWordsValid(types, words[1..]); }
  }

  lemma AffixValid(types: Types, words: seq<string>, s: Seed)
    requires Known(types, words) && Valid(types, s.d)
    ensures ValidDeclaration(types, Affix(words, s))
  {
    hide Valid, IsIdentifier;
    var k := Leading(s.front);
    QualSpecsValid(types, s.front[..k]);
    QualSpecsValid(types, s.front[k..]);
    var w := WordSpecs(words);
    assert w != [] && ValidSpecs(types, w) by {
      if !(|words| == 2 && IsTagKey(words[0])) { AllWordsValid(types, words); }
    }
  }

  lemma {:induction false} FormalValid(types: Types, t: Type)
    requires GoodTypes(types) && WellFormed(types, t)
    ensures ValidDeclaration(types, Formal(types, t))
    decreases t, 1
  {
    GenValid(types, Seed([], Abstract), t);
    BaseKnown(types, t);
    AffixValid(types, Base(t), Gen(types, Seed([], Abstract), t));
  }

  lemma {:induction false} MoreFormalsValid(types: Types, args: Chain)
    requires GoodTypes(types) && WellFormedChain(types, args)
    ensures ValidParams(types, MoreFormals(types, args))
    decreases args, 0
  {
    if args.Arg? {
      FormalValid(types, args.head);
      MoreFormalsValid(types, args.tail);
    }
  }

  lemma {:induction false} FormalsValid(types: Types, args: Chain)
    requires GoodTypes(types) && WellFormedChain(types, args)
    ensures ValidParams(types, Formals(types, args)) && !Formals(types, args).AndMore?
    decreases args, 0
  {
    if args.Arg? {
      FormalValid(types, args.head);
      MoreFormalsValid(types, args.tail);
    }
  }
}
