/** gen_type, gen_formal_list_for_type, affix_data_type and gen_decl of c-aux-info.c on strings. */
module AuxInfo {
  import opened Declarators
  import opened TypePrinting
  import opened DeclarationText

  // ---- what the functions return ----

  /** The text of a data type. */
  function Join(words: seq<string>): string {
    if words == [] then "" else if |words| == 1 then words[0] else words[0] + " " + Join(words[1..])
  }

  /** How far the leading "const " and "volatile " go. */
  function SkipQuals(s: string): (n: nat)
    ensures n <= |s|
  {
    if "volatile " <= s then 9 + SkipQuals(s[9..])
    else if "const " <= s then 6 + SkipQuals(s[6..])
    else 0
  }

  function AffixText(dataType: string, param: string): string {
    var k := SkipQuals(param);
    if k == 0 then dataType + " " + param else param[..k] + dataType + " " + param[k..]
  }

  function FrontText(q: Quals, s: string): string {
    var a := if q.isConst then "const " + s else s;
    var b := if q.isVolatile then "volatile " + a else a;
    if q.isRestrict then "restrict " + b else b
  }

  function PointerText(q: Quals, s: string, suffixed: bool): string {
    var a := if q.isConst then "const " + s else s;
    var b := if q.isVolatile then "volatile " + a else a;
    var c := "*" + b;
    if suffixed then "(" + c + ")" else c
  }

  function GenText(types: Types, ansi: bool, s: string, t: Type): string
    decreases t, 0
  {
    match t
    case Named(_, q) => FrontText(q, s)
    case Pointer(to, q) => GenText(types, ansi, PointerText(q, s, Suffixed(types, to)), to)
    case Array(e, c, q) => FrontText(q, GenText(types, ansi, s + CountText(c), e))
    case Function(r, args, q) => FrontText(q, GenText(types, ansi, s + FormalListText(types, ansi, args), r))
  }

  function FormalText(types: Types, t: Type): string
    decreases t, 1
  {
    var s := GenText(types, true, "", t);
    if s != "" then AffixText(Join(Base(t)), s) else Join(Base(t))
  }

  function FormalListText(types: Types, ansi: bool, args: Chain): string
    decreases args, 1
  {
    if ansi then " (" + ListFrom(types, args, "", args) + ")" else "()"
  }

  /** The list when acc has been written and the arguments from rest on remain. */
  function ListFrom(types: Types, args: Chain, acc: string, rest: Chain): string
    decreases rest, 0
  {
    if rest.Arg? then ListFrom(types, args, (if acc != "" then acc + ", " else acc) + FormalText(types, rest.head), rest.tail)
    else if acc == "" then if args.End? then "/* ??? */" else "void"
    else if rest.End? then acc + ", ..."
    else acc
  }

  // ---- the functions ----

  class Printer {
    /** the static data_type */
    var dataType: string
    /** an array count has been written beyond the end of its buffer */
    var overrun: bool

    method AffixDataType(param: string) returns (r: string)
      ensures r == AffixText(dataType, param)
    {
      var p := 0;
      while true
        invariant p <= |param| && SkipQuals(param) == p + SkipQuals(param[p..])
        decreases |param| - p
      {
        if "volatile " <= param[p..] {
          assert param[p..][9..] == param[p + 9..];
          p := p + 9;
          continue;
        }
        if "const " <= param[p..] {
          assert param[p..][6..] == param[p + 6..];
          p := p + 6;
          continue;
        }
        break;
      }
      if p == 0 { return dataType + " " + param; }
      r := param[..p] + dataType;
      r := r + " " + param[p..];
    }

    method GenFormalListForType(types: Types, args: Chain, ansi: bool) returns (r: string)
      modifies this
      ensures r == FormalListText(types, ansi, args)
      ensures overrun <==> old(overrun) || (ansi && !CountsFitChain(args))
      decreases args, 1
    {
      if !ansi { return "()"; }
      var formalList := "";
      var formalType := args;
      while formalType.Arg?
        invariant formalType == args || formalType < args
        invariant ListFrom(types, args, "", args) == ListFrom(types, args, formalList, formalType)
        invariant (overrun || !CountsFitChain(formalType)) <==> (old(overrun) || !CountsFitChain(args))
        decreases formalType
      {
        if formalList != "" { formalList := formalList + ", "; }
        var thisType := GenType(types, "", formalType.head, true);
        if |thisType| != 0 {
          var affixed := AffixDataType(thisType);
          formalList := formalList + affixed;
        } else {
          formalList := formalList + dataType;
        }
        formalType := formalType.tail;
      }
      if formalList == "" {
        formalList := if !args.End? then "void" else "/* ??? */";
      } else if formalType.End? {
        formalList := formalList + ", ...";
      }
      return " (" + formalList + ")";
    }

    method GenType(types: Types, seed: string, t: Type, ansi: bool) returns (retVal: string)
      modifies this
      ensures retVal == GenText(types, ansi, seed, t) && dataType == Join(Base(t))
      ensures overrun <==> old(overrun) || !CountsFit(ansi, t)
      decreases t, 0
    {
      retVal := seed;
      match t {
        case Pointer(to, q) =>
          if q.isConst { retVal := "const " + retVal; }
          if q.isVolatile { retVal := "volatile " + retVal; }
          retVal := "*" + retVal;
          if to.Array? || to.Function? || (to.Named? && |to.words| == 1 && to.words[0] in types && types[to.words[0]]) {
            retVal := "(" + retVal + ")";
          }
          retVal := GenType(types, retVal, to, ansi);
          return;
        case Array(e, c, _) =>
          if c.Sized? {
            CountFits(c.n);
            overrun := overrun || |CountText(c)| + 1 > BUFF_SIZE;
          }
          retVal := GenType(types, retVal + CountText(c), e, ansi);
        case Function(res, args, _) =>
          var formals := GenFormalListForType(types, args, ansi);
          retVal := GenType(types, retVal + formals, res, ansi);
        case Named(words, _) =>
          dataType := Join(words);
      }
      retVal := QualifyFront(t.quals, retVal);
    }

    /** The end of gen_type: the qualifiers of what is not a pointer. */
    method QualifyFront(q: Quals, s: string) returns (retVal: string)
      ensures retVal == FrontText(q, s)
    {
      retVal := s;
      if q.isConst { retVal := "const " + retVal; }
      if q.isVolatile { retVal := "volatile " + retVal; }
      if q.isRestrict { retVal := "restrict " + retVal; }
    }

    /** gen_decl, for what is not a function definition; the declared entity may have qualifiers of its own. */
    method GenDecl(types: Types, decl: Entity, ansi: bool) returns (retVal: string)
      modifies this
      ensures retVal == StorageText(decl, AffixText(Join(Base(decl.t)), GenText(types, ansi, EntityText(decl), decl.t)))
      ensures overrun <==> old(overrun) || !CountsFit(ansi, decl.t)
    {
      hide AffixText, GenText, Join, CountsFit;
      retVal := decl.name;
      if decl.isVolatile { retVal := "volatile " + retVal; }
      if decl.isReadonly { retVal := "const " + retVal; }
      dataType := "";
      retVal := GenType(types, retVal, decl.t, ansi);
      retVal := AffixDataType(retVal);
      if !decl.isFunction && decl.isRegister { retVal := "register " + retVal; }
      if decl.isPublic { retVal := "extern " + retVal; }
      if decl.isFunction && !decl.isPublic { retVal := "static " + retVal; }
    }
  }

  /** What gen_decl asks of a declaration; without a name, name is empty. */
  datatype Entity = Entity(name: string, t: Type, isVolatile: bool, isReadonly: bool, isFunction: bool, isRegister: bool, isPublic: bool)

  function EntityText(decl: Entity): string {
    var a := if decl.isVolatile then "volatile " + decl.name else decl.name;
    if decl.isReadonly then "const " + a else a
  }

  function StorageText(decl: Entity, s: string): string {
    if decl.isFunction then
      if decl.isPublic then "extern " + s else "static " + s
    else
      var a := if decl.isRegister then "register " + s else s;
      if decl.isPublic then "extern " + a else a
  }

  // ---- the strings are the text of the declarations built ----

  lemma JoinSpecs(words: seq<string>)
    requires words != []
    ensures SpecsText(WordSpecs(words)) == Join(words) + " "
  {
    if |words| == 2 && IsTagKey(words[0]) {
      assert words[1..] == [words[1]];
      assert SpecsText([Tagged(words[0], words[1])][1..]) == "";
    } else {
      JoinAll(words);
    }
  }

  lemma {:induction false} JoinAll(words: seq<string>)
    requires words != []
    ensures SpecsText(AllWords(words)) == Join(words) + " "
  {
    if |words| == 1 {
      assert AllWords(words)[1..] == [];
    } else {
      JoinAll(words[1..]);
      assert AllWords(words)[1..] == AllWords(words[1..]);
    }
  }

  lemma {:induction false} QualSpecsText(qs: seq<Qualifier>)
    ensures SpecsText(QualSpecs(qs)) == QualText(qs)
  {
    if qs != [] {
      QualSpecsText(qs[1..]);
      assert QualSpecs(qs)[1..] == QualSpecs(qs[1..]);
    }
  }

  lemma {:induction false} SpecsTextSum(a: seq<Specifier>, b: seq<Specifier>)
    ensures SpecsText(a + b) == SpecsText(a) + SpecsText(b)
  {
    hide SpecText, SpecsText;
    if a == [] {
      SpecsTextParts(a);
      assert a + b == b && "" + SpecsText(b) == SpecsText(b);
    } else {
      SpecsTextSum(a[1..], b);
      SpecsTextParts(a);
      SpecsTextParts(a + b);
      assert (a + b)[1..] == a[1..] + b;
    }
  }

  lemma SpecsTextParts(ss: seq<Specifier>)
    ensures SpecsText(ss) == if ss == [] then "" else SpecText(ss[0]) + " " + SpecsText(ss[1..])
  {}

  lemma OneMore(q: Qualifier, qs: seq<Qualifier>, s: string)
    ensures QualText([q] + qs) + s == (match q case Const => "const " case Volatile => "volatile " case Restrict => "restrict ") + (QualText(qs) + s)
  {
    assert ([q] + qs)[1..] == qs;
    SpellingBlank(q);
    hide Spelling;
    assert QualText([q] + qs) == (Spelling(q) + " ") + QualText(qs);
  }

  lemma SpellingBlank(q: Qualifier)
    ensures Spelling(q) + " " == (match q case Const => "const " case Volatile => "volatile " case Restrict => "restrict ")
  {}

  lemma FrontIs(q: Quals, qs: seq<Qualifier>, s: string)
    ensures FrontText(q, QualText(qs) + s) == QualText(InFront(q) + qs) + s
  {
    hide QualText, Spelling;
    var a := if q.isConst then [Const] + qs else qs;
    var b := if q.isVolatile then [Volatile] + a else a;
    OneMore(Const, qs, s);
    OneMore(Volatile, a, s);
    OneMore(Restrict, b, s);
    InFrontIs(q, qs);
  }

  lemma InFrontIs(q: Quals, qs: seq<Qualifier>)
    ensures var a := if q.isConst then [Const] + qs else qs;
      var b := if q.isVolatile then [Volatile] + a else a;
      (InFront(q) + qs == if q.isRestrict then [Restrict] + b else b) && OfPointer(q) + qs == b
  {}

  lemma PointerIs(q: Quals, qs: seq<Qualifier>, s: string)
    ensures PointerText(q, QualText(qs) + s, false) == "*" + (QualText(OfPointer(q) + qs) + s)
    ensures PointerText(q, QualText(qs) + s, true) == "(" + ("*" + (QualText(OfPointer(q) + qs) + s)) + ")"
  {
    hide QualText, Spelling;
    var a := if q.isConst then [Const] + qs else qs;
    OneMore(Const, qs, s);
    OneMore(Volatile, a, s);
    InFrontIs(q, qs);
  }

  /** The text of a seed. */
  function SeedText(s: Seed): string {
    QualText(s.front) + Text(s.d)
  }

  /** gen_type keeps to the text of what Gen builds. */
  lemma {:induction false} GenTextIs(types: Types, s: Seed, t: Type)
    requires GoodTypes(types) && WellFormed(types, t)
    ensures GenText(types, true, SeedText(s), t) == SeedText(Gen(types, s, t))
    decreases t, 0
  {
    hide QualText, Text, PointerText, FrontText, CountText, FormalListText, GoodTypes;
    match t
    case Named(_, q) =>
      FrontIs(q, s.front, Text(s.d));
    case Pointer(to, q) =>
      var p := Ptr(OfPointer(q) + s.front, s.d);
      var d := if Suffixed(types, to) then Paren(p) else p;
      GenTextIs(types, Seed([], d), to);
      PointerIs(q, s.front, Text(s.d));
      PointerSeed(OfPointer(q) + s.front, s.d);
    case Array(e, c, q) =>
      GenTextIs(types, Seed(s.front, Arr(s.d, c)), e);
      ArrSeed(s, c);
      var r := Gen(types, Seed(s.front, Arr(s.d, c)), e);
      FrontIs(q, r.front, Text(r.d));
    case Function(res, args, q) =>
      var ps := Formals(types, args);
      GenTextIs(types, Seed(s.front, Fun(s.d, ps)), res);
      FormalListIs(types, args);
      FunSeed(s, ps);
      var r := Gen(types, Seed(s.front, Fun(s.d, ps)), res);
      FrontIs(q, r.front, Text(r.d));
  }

  lemma PointerSeed(qs: seq<Qualifier>, d: Declarator)
    ensures SeedText(Seed([], Ptr(qs, d))) == "*" + (QualText(qs) + Text(d))
    ensures SeedText(Seed([], Paren(Ptr(qs, d)))) == "(" + ("*" + (QualText(qs) + Text(d))) + ")"
  {
    hide Spelling;
    assert QualText([]) == "";
    assert Text(Ptr(qs, d)) == "*" + (QualText(qs) + Text(d));
  }

  lemma ArrSeed(s: Seed, c: Count)
    ensures SeedText(Seed(s.front, Arr(s.d, c))) == SeedText(s) + CountText(c)
  {}

  lemma FunSeed(s: Seed, ps: Params)
    ensures SeedText(Seed(s.front, Fun(s.d, ps))) == SeedText(s) + (" (" + (if ps.NoMore? then "/* ??? */" else ParamsText(ps)) + ")")
  {}

  function MoreText(ps: Params): string {
    if ps.NoMore? then "" else ", " + ParamsText(ps)
  }

  lemma {:induction false} ListFromIs(types: Types, args: Chain, acc: string, rest: Chain)
    requires GoodTypes(types) && WellFormedChain(types, rest) && acc != ""
    ensures ListFrom(types, args, acc, rest) == acc + MoreText(MoreFormals(types, rest))
    decreases rest, 0
  {
    hide FormalText, DeclText, GoodTypes;
    if rest.Arg? {
      var more := MoreFormals(types, rest.tail);
      var acc1 := acc + ", " + FormalText(types, rest.head);
      FormalIs(types, rest.head);
      ListFromIs(types, args, acc1, rest.tail);
      assert ParamsText(Param(Formal(types, rest.head), more)) == DeclText(Formal(types, rest.head)) + MoreText(more);
      Regroup(acc, FormalText(types, rest.head), MoreText(more));
    } else {
      assert acc + "" == acc;
    }
  }

  lemma Regroup(a: string, b: string, c: string)
    ensures a + ", " + b + c == a + (", " + (b + c))
  {}

  lemma {:induction false} FormalListIs(types: Types, args: Chain)
    requires GoodTypes(types) && WellFormedChain(types, args)
    ensures var ps := Formals(types, args);
      FormalListText(types, true, args) == " (" + (if ps.NoMore? then "/* ??? */" else ParamsText(ps)) + ")"
    decreases args, 1
  {
    hide FormalText, DeclText, GoodTypes;
    match args
    case End =>
    case VoidEnd =>
      VoidText();
      assert ParamsText(Param(VOID_DECLARATION, NoMore)) == DeclText(VOID_DECLARATION) + "";
    case Arg(t, rest) =>
      FormalIs(types, t);
      ListFromIs(types, args, FormalText(types, t), rest);
      assert "" + FormalText(types, t) == FormalText(types, t);
      assert ParamsText(Formals(types, args)) == DeclText(Formal(types, t)) + MoreText(MoreFormals(types, rest));
  }

  lemma VoidText()
    ensures DeclText(VOID_DECLARATION) == "void"
  {
    var ss := VOID_DECLARATION.specs;
    assert ss[1..] == [] && SpecsText([]) == "";
    assert SpecsText(ss) == "void" + " " + "";
    assert Text(Abstract) == "";
    assert SpecsText(ss) + "" == "void ";
    assert Bare(VOID_DECLARATION);
  }

  lemma {:induction false} FormalIs(types: Types, t: Type)
    requires GoodTypes(types) && WellFormed(types, t)
    ensures FormalText(types, t) == DeclText(Formal(types, t)) != ""
    decreases t, 1
  {
    hide GenText, AffixText, Gen, Text, QualText, SpecsText, Join, WordSpecs, GoodTypes, Affix, Bare, Valid;
    var r := Gen(types, Seed([], Abstract), t);
    var words := Base(t);
    EmptySeed();
    GenTextIs(types, Seed([], Abstract), t);
    GenValid(types, Seed([], Abstract), t);
    BaseKnown(types, t);
    BareWhen(types, words, r);
    if SeedText(r) == "" {
      BareFormal(types, words, r);
      JoinNotEmpty(types, words);
    } else {
      AffixIs(types, words, r);
      AffixNotEmpty(Join(words), SeedText(r));
    }
  }

  lemma EmptySeed()
    ensures SeedText(Seed([], Abstract)) == "" && Valid(map[], Abstract) && forall types :: Valid(types, Abstract)
  {}

  lemma AffixNotEmpty(dataType: string, s: string)
    ensures AffixText(dataType, s) != ""
  {}

  /** Text that does not start with a qualifier and a blank. */
  predicate NoQualifier(s: string) {
    !("const " <= s) && !("volatile " <= s)
  }

  lemma WordNoQualifier(types: Types, id: string, rest: string)
    requires IsIdentifier(id) && Declarable(types, id) && Apart(rest)
    ensures NoQualifier(id + rest)
  {
    NotFollowed(id, rest, "const");
    NotFollowed(id, rest, "volatile");
  }

  lemma {:induction false} Differ(a: string, b: string) returns (k: nat)
    requires |a| == |b| && a != b
    ensures k < |a| && a[k] != b[k]
  {
    if a[0] != b[0] {
      k := 0;
    } else {
      assert a == [a[0]] + a[1..] && b == [b[0]] + b[1..];
      var j := Differ(a[1..], b[1..]);
      k := j + 1;
    }
  }

  lemma NotFollowed(id: string, rest: string, w: string)
    requires IsIdentifier(id) && IsIdentifier(w) && id != w && Apart(rest)
    ensures !(w + " " <= id + rest)
  {
    var s, p := id + rest, w + " ";
    if |p| <= |s| {
      if |id| < |w| {
        assert s[|id|] == rest[0] && p[|id|] == w[|id|];
      } else if |w| < |id| {
        assert s[|w|] == id[|w|] && p[|w|] == ' ';
      } else {
        var k := Differ(id, w);
        assert s[k] == id[k] && p[k] == w[k];
      }
    }
  }

  lemma {:induction false} TextNoQualifier(types: Types, d: Declarator, rest: string)
    requires Valid(types, d) && Apart(rest)
    ensures NoQualifier(Text(d) + rest)
    decreases d
  {
    hide QualText, CountText, ParamsText, IsIdentifier, Declarable, NoQualifier;
    match d
    case Abstract =>
      NoText(rest);
      ApartNoQualifier(rest);
    case Name(id) =>
      NameText(id);
      WordNoQualifier(types, id, rest);
    case Ptr(qs, i) =>
      PtrText(qs, i, rest);
      ApartNoQualifier(Text(d) + rest);
    case Paren(i) =>
      ParenText(i, rest);
      ApartNoQualifier(Text(d) + rest);
    case Arr(i, c) =>
      CountApart(c, rest);
      ArrText(i, c, rest);
      TextNoQualifier(types, i, CountText(c) + rest);
    case Fun(i, ps) =>
      FunText(i, ps, rest);
      TextNoQualifier(types, i, " " + ("(" + ((if ps.NoMore? then "/* ??? */" else ParamsText(ps)) + (")" + rest))));
  }

  lemma ApartNoQualifier(s: string)
    requires Apart(s)
    ensures NoQualifier(s)
  {}

  lemma {:induction false} SkipIs(types: Types, front: seq<Qualifier>, d: Declarator)
    requires Valid(types, d)
    ensures SkipQuals(QualText(front) + Text(d)) == |QualText(front[..Leading(front)])|
  {
    hide QualText, Spelling, Text, Valid;
    NoQualText();
    if front == [] {
      TextNoQualifier(types, d, "");
      assert Text(d) + "" == Text(d) && "" + Text(d) == Text(d);
    } else {
      var more := QualText(front[1..]) + Text(d);
      assert front == [front[0]] + front[1..];
      OneMore(front[0], front[1..], Text(d));
      if front[0] == Restrict {
        SkipNot(more);
      } else {
        SkipIs(types, front[1..], d);
        var k := Leading(front[1..]);
        SkipOne(front[0], more);
        OneMore(front[0], front[1..][..k], "");
        assert front[..k + 1] == [front[0]] + front[1..][..k];
        assert QualText(front[..k + 1]) + "" == QualText(front[..k + 1]);
        assert QualText(front[1..][..k]) + "" == QualText(front[1..][..k]);
      }
    }
  }

  lemma NoQualText()
    ensures QualText([]) == ""
  {}

  lemma SkipNot(more: string)
    ensures SkipQuals("restrict " + more) == 0
  {
    assert ("restrict " + more)[0] == 'r';
  }

  lemma SkipOne(q: Qualifier, more: string)
    requires q != Restrict
    ensures SkipQuals((match q case Const => "const " case Volatile => "volatile " case Restrict => "restrict ") + more)
         == (if q == Const then 6 else 9) + SkipQuals(more)
  {
    if q == Const {
      assert ("const " + more)[6..] == more && ("const " + more)[0] == 'c';
    } else {
      assert ("volatile " + more)[9..] == more;
    }
  }

  lemma KnownWords(types: Types, words: seq<string>)
    requires Known(types, words)
    ensures words != []
  {}

  /** affix_data_type puts the data type where Affix does. */
  lemma AffixIs(types: Types, words: seq<string>, r: Seed)
    requires Known(types, words) && Valid(types, r.d)
    ensures AffixText(Join(words), SeedText(r)) == SpecsText(Affix(words, r).specs) + Text(r.d) && Affix(words, r).declarator == r.d
  {
    hide QualText, Text, Join, SpecsText, QualSpecs, WordSpecs, SkipQuals, Valid, Known, AffixText, Leading, SetOf;
    KnownWords(types, words);
    var k := Leading(r.front);
    var a, b := r.front[..k], r.front[k..];
    SkipIs(types, r.front, r.d);
    SpecsTextSum(QualSpecs(a) + WordSpecs(words), QualSpecs(b));
    SpecsTextSum(QualSpecs(a), WordSpecs(words));
    QualSpecsText(a);
    QualSpecsText(b);
    JoinSpecs(words);
    QualTextSum(a, b);
    assert r.front == a + b;
    assert SeedText(r) == QualText(a) + (QualText(b) + Text(r.d));
    AffixSplit(Join(words), QualText(a), QualText(b) + Text(r.d));
  }

  lemma {:induction false} QualTextSum(a: seq<Qualifier>, b: seq<Qualifier>)
    ensures QualText(a + b) == QualText(a) + QualText(b)
  {
    hide QualText, Spelling;
    if a == [] {
      NoQualText();
      assert a + b == b;
    } else {
      QualTextSum(a[1..], b);
      OneMore(a[0], a[1..], "");
      OneMore(a[0], a[1..] + b, "");
      assert a == [a[0]] + a[1..] && a + b == [a[0]] + (a[1..] + b);
      assert QualText(a + b) + "" == QualText(a + b) && QualText(a) + "" == QualText(a);
      assert QualText(a[1..] + b) + "" == QualText(a[1..] + b) && QualText(a[1..]) + "" == QualText(a[1..]);
    }
  }

  lemma AffixSplit(dataType: string, a: string, b: string)
    requires SkipQuals(a + b) == |a|
    ensures AffixText(dataType, a + b) == a + (dataType + " " + b)
  {
    assert (a + b)[..|a|] == a && (a + b)[|a|..] == b;
    if a == "" { assert a + b == b; }
  }

  lemma {:induction false} TextEmpty(types: Types, d: Declarator)
    requires Valid(types, d)
    ensures Text(d) == "" <==> d.Abstract?
  {
    hide QualText, ParamsText, Decimal;
  }

  lemma QualifiedSpec(qs: seq<Qualifier>)
    requires qs != []
    ensures Qualified(qs[0]) in QualSpecs(qs)
  {}

  lemma WordSpecsPlain(words: seq<string>)
    ensures forall q :: Qualified(q) !in WordSpecs(words)
  {
    WordSpecsOf(words);
    forall q ensures Qualified(q) !in WordSpecs(words) {
      match q
      case Const =>
      case Volatile =>
      case Restrict =>
    }
  }

  lemma BareWhen(types: Types, words: seq<string>, r: Seed)
    requires Known(types, words) && Valid(types, r.d)
    ensures Bare(Affix(words, r)) <==> SeedText(r) == ""
  {
    hide Text, Valid, WordSpecs, QualSpecs, Known, Spelling;
    TextEmpty(types, r.d);
    WordSpecsPlain(words);
    SomeWords(types, words);
    var k := Leading(r.front);
    if r.front == [] {
      assert r.front[..k] == [] && r.front[k..] == [];
      NoQualSpecs();
    } else if k > 0 {
      QualifiedSpec(r.front[..k]);
      assert Qualified(r.front[..k][0]) in Affix(words, r).specs;
    } else {
      QualifiedSpec(r.front[k..]);
      assert Qualified(r.front[k..][0]) in Affix(words, r).specs;
    }
  }

  lemma NoQualSpecs()
    ensures QualSpecs([]) == []
  {}

  lemma SomeWords(types: Types, words: seq<string>)
    requires Known(types, words)
    ensures WordSpecs(words) != []
  {}

  lemma NoFront(qs: seq<Qualifier>)
    ensures QualText(qs) == "" <==> qs == []
  {}

  lemma BareFormal(types: Types, words: seq<string>, r: Seed)
    requires Known(types, words) && Valid(types, r.d) && SeedText(r) == "" && Bare(Affix(words, r))
    ensures DeclText(Affix(words, r)) == Join(words)
  {
    hide Valid, Text;
    TextEmpty(types, r.d);
    NoFront(r.front);
    JoinSpecs(words);
    NoQualSpecs();
    assert Affix(words, r).specs == WordSpecs(words);
    assert SpecsText(WordSpecs(words)) + Text(r.d) == Join(words) + " ";
    assert (Join(words) + " ")[..|Join(words)|] == Join(words);
  }

  lemma JoinNotEmpty(types: Types, words: seq<string>)
    requires GoodTypes(types) && Known(types, words)
    ensures Join(words) != ""
  {
    assert words[0] in types ==> IsIdentifier(words[0]);
  }

  // ---- reading back what was printed ----

  function DeclaredName(d: Declarator): string {
    match d
    case Abstract => ""
    case Name(id) => id
    case Ptr(_, i) => DeclaredName(i)
    case Paren(i) => DeclaredName(i)
    case Arr(i, _) => DeclaredName(i)
    case Fun(i, _) => DeclaredName(i)
  }

  lemma {:induction false} GenName(types: Types, s: Seed, t: Type)
    ensures DeclaredName(Gen(types, s, t).d) == DeclaredName(s.d)
    decreases t
  {
    match t
    case Named(_, _) =>
    case Pointer(to, q) =>
      var p := Ptr(OfPointer(q) + s.front, s.d);
      GenName(types, Seed([], if Suffixed(types, to) then Paren(p) else p), to);
    case Array(e, c, _) => GenName(types, Seed(s.front, Arr(s.d, c)), e);
    case Function(r, args, _) => GenName(types, Seed(s.front, Fun(s.d, Formals(types, args))), r);
  }

  /** The text of a declaration, the data type and gen_type's text affixed. */
  function Printed(types: Types, front: seq<Qualifier>, name: string, t: Type): string {
    AffixText(Join(Base(t)), GenText(types, true, QualText(front) + name, t))
  }

  /** What is printed has the tokens of a declaration of that name with that type. */
  lemma PrintedTokens(types: Types, front: seq<Qualifier>, name: string, t: Type) returns (d: Declaration)
    requires GoodTypes(types) && WellFormed(types, t) && Restrict !in front
    requires name == "" || (IsIdentifier(name) && Declarable(types, name))
    ensures Lex(Printed(types, front, name, t)) == ShowDeclaration(d) && ValidDeclaration(types, d)
    ensures DeclaredName(d.declarator) == name && TypeOf(d) == Seen(Push(t, SetOf(front)))
  {
    hide GoodTypes, WellFormed, IsIdentifier, Declarable, Lex, Join, GenText, QualText, AffixText, Gen, TypeOf, Known,
      Seen, Push, SetOf, ShowDeclaration, SpecsText, Affix, Apply, DeclaredName;
    var s := Seed(front, if name == "" then Abstract else Name(name));
    var r := Gen(types, s, t);
    d := Affix(Base(t), r);
    NamedSeed(types, s, name);
    GenTextIs(types, s, t);
    GenValid(types, s, t);
    GenName(types, s, t);
    GenMeaning(types, s, t);
    BaseKnown(types, t);
    AffixIs(types, Base(t), r);
    AffixValid(types, Base(t), r);
    AffixMeaning(Base(t), r);
    LexPrinted(types, d);
  }

  /**
   * The main result: what is printed for a type, with or without a name and with the qualifiers of the declared
   * entity in front, is read as a declaration of that name with the type Seen says; for a type that is Printable
   * and an entity without qualifiers that is the type itself.
   */
  lemma PrintedBack(types: Types, front: seq<Qualifier>, name: string, t: Type)
    requires GoodTypes(types) && WellFormed(types, t) && Restrict !in front
    requires name == "" || (IsIdentifier(name) && Declarable(types, name))
    ensures var p := ParseDeclaration(types, Lex(Printed(types, front, name, t)));
      p.Got? && p.rest == [] && DeclaredName(p.value.declarator) == name
      && TypeOf(p.value) == Seen(Push(t, SetOf(front)))
      && (front == [] && Printable(t) ==> TypeOf(p.value) == t)
  {
    hide GoodTypes, WellFormed, IsIdentifier, Declarable, ParseDeclaration, Lex, TypeOf, Seen, Push, SetOf, ShowDeclaration,
      Printable, DeclaredName, Printed, ValidDeclaration;
    var d := PrintedTokens(types, front, name, t);
    DeclarationBack(types, d, []);
    assert ShowDeclaration(d) + [] == ShowDeclaration(d);
    if front == [] && Printable(t) {
      PushNone(t);
      SeenIffPrintable(t);
    }
  }

  lemma NamedSeed(types: Types, s: Seed, name: string)
    requires s.d == (if name == "" then Abstract else Name(name))
    requires name == "" || (IsIdentifier(name) && Declarable(types, name))
    ensures SeedText(s) == QualText(s.front) + name && Valid(types, s.d) && DeclaredName(s.d) == name && !s.d.Ptr?
    ensures forall t :: Apply(t, s.d) == t
  {}

  lemma LexPrinted(types: Types, d: Declaration)
    requires GoodTypes(types) && ValidDeclaration(types, d)
    ensures Lex(SpecsText(d.specs) + Text(d.declarator)) == ShowDeclaration(d)
  {
    hide GoodTypes, ValidSpec, Valid, SpecsText, Text, Show, ShowSpecs;
    LexSpecs(types, d.specs, Text(d.declarator));
    LexDeclarator(types, d.declarator, "");
    assert Text(d.declarator) + "" == Text(d.declarator);
    assert Lex("") == [];
  }

  // ---- reading the storage class ----

  predicate IsStorage(t: Token) {
    t.Word? && (t.text == "extern" || t.text == "static" || t.text == "register")
  }

  /** w is among the storage class words in front. */
  predicate HasStorage(w: string, ts: seq<Token>) {
    ts != [] && IsStorage(ts[0]) && (ts[0].text == w || HasStorage(w, ts[1..]))
  }

  function SkipStorage(ts: seq<Token>): seq<Token> {
    if ts != [] && IsStorage(ts[0]) then SkipStorage(ts[1..]) else ts
  }

  lemma StorageWord(w: string, s: string)
    requires IsIdentifier(w) && IsStorage(Word(w))
    ensures SkipStorage(Lex(w + " " + s)) == SkipStorage(Lex(s))
    ensures forall v :: HasStorage(v, Lex(w + " " + s)) <==> v == w || HasStorage(v, Lex(s))
  {
    hide Lex;
    LexWordBlank(w, s);
    assert ([Word(w)] + Lex(s))[1..] == Lex(s);
  }

  lemma NoStorageFirst(types: Types, d: Declaration)
    requires ValidDeclaration(types, d) && NoStorageWords(types)
    ensures ShowDeclaration(d) != [] && !IsStorage(ShowDeclaration(d)[0])
  {
    hide Show;
    assert ValidSpec(types, d.specs[0]);
    assert ShowDeclaration(d)[0] == ShowSpec(d.specs[0])[0];
  }

  /** No type is called like a storage class. */
  predicate NoStorageWords(types: Types) {
    "extern" !in types && "static" !in types && "register" !in types
  }

  lemma StorageTextOf(decl: Entity, s: string)
    requires Lex(s) != [] && !IsStorage(Lex(s)[0])
    ensures var ts := Lex(StorageText(decl, s));
      SkipStorage(ts) == Lex(s)
      && (HasStorage("extern", ts) <==> decl.isPublic)
      && (HasStorage("static", ts) <==> decl.isFunction && !decl.isPublic)
      && (HasStorage("register", ts) <==> !decl.isFunction && decl.isRegister)
  {
    hide Lex;
    StorageWord("extern", s);
    StorageWord("static", s);
    StorageWord("register", s);
    StorageWord("extern", "register " + s);
    Blanks(s);
    Blanks("register " + s);
  }

  lemma Blanks(s: string)
    ensures "extern " + s == "extern" + " " + s && "static " + s == "static" + " " + s && "register " + s == "register" + " " + s
  {
    assert "extern " == "extern" + " " && "static " == "static" + " " && "register " == "register" + " ";
  }

  /** What gen_decl prints is read as a declaration of the entity's name with its type and its storage class. */
  lemma DeclaredBack(types: Types, decl: Entity)
    requires GoodTypes(types) && WellFormed(types, decl.t) && NoStorageWords(types)
    requires decl.name == "" || (IsIdentifier(decl.name) && Declarable(types, decl.name))
    ensures
      var ts := Lex(StorageText(decl, AffixText(Join(Base(decl.t)), GenText(types, true, EntityText(decl), decl.t))));
      var p := ParseDeclaration(types, SkipStorage(ts));
      && p.Got? && p.rest == [] && DeclaredName(p.value.declarator) == decl.name
      && TypeOf(p.value) == Seen(Push(decl.t, Quals(decl.isReadonly, decl.isVolatile, false)))
      && (HasStorage("extern", ts) <==> decl.isPublic)
      && (HasStorage("static", ts) <==> decl.isFunction && !decl.isPublic)
      && (HasStorage("register", ts) <==> !decl.isFunction && decl.isRegister)
  {
    hide GoodTypes, WellFormed, IsIdentifier, Declarable, ParseDeclaration, Lex, Join, GenText, AffixText, TypeOf, Seen, Push, QualText,
      NoStorageWords, SkipStorage, HasStorage, IsStorage, StorageText, ShowDeclaration, ValidDeclaration;
    var front := EntityFront(decl);
    var d := PrintedTokens(types, front, decl.name, decl.t);
    PrintedBack(types, front, decl.name, decl.t);
    NoStorageFirst(types, d);
    StorageTextOf(decl, Printed(types, front, decl.name, decl.t));
  }

  /** The qualifiers of the entity. */
  lemma EntityFront(decl: Entity) returns (front: seq<Qualifier>)
    ensures QualText(front) + decl.name == EntityText(decl) && Restrict !in front
    ensures SetOf(front) == Quals(decl.isReadonly, decl.isVolatile, false)
  {
    hide QualText;
    var a := if decl.isVolatile then [Volatile] else [];
    front := if decl.isReadonly then [Const] + a else a;
    NoQualText();
    OneMore(Volatile, [], decl.name);
    OneMore(Const, a, decl.name);
    assert [Volatile] + [] == [Volatile] && "" + decl.name == decl.name;
  }
}
