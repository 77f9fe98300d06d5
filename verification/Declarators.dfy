/**
 * C declarations: types, the declarator grammar of sections 6.7.5 and 6.7.6 of ISO/IEC 9899:1999 with a parser
 * for it, and what a declarator makes of the type before it.
 */
module Declarators {
  // ---- types ----

  datatype Quals = Quals(isConst: bool, isVolatile: bool, isRestrict: bool)

  const PLAIN: Quals := Quals(false, false, false)

  function Both(p: Quals, q: Quals): Quals {
    Quals(p.isConst || q.isConst, p.isVolatile || q.isVolatile, p.isRestrict || q.isRestrict)
  }

  /**
   * A C type. Named is a type printed by name: a base type, a tagged type or a typedef; words is its text.
   * An array has no count when it is incomplete.
   */
  datatype Type =
    | Named(words: seq<string>, quals: Quals)
    | Pointer(to: Type, quals: Quals)
    | Array(element: Type, count: Count, quals: Quals)
    | Function(result: Type, args: Chain, quals: Quals)

  datatype Count = Unsized | Sized(n: nat)

  /** The chain TYPE_ARG_TYPES: it ends with the void type unless the function takes more, or unknown, arguments. */
  datatype Chain = End | VoidEnd | Arg(head: Type, tail: Chain)

  // ---- syntax ----

  datatype Token = Word(text: string) | Number(n: nat) | Star | LParen | RParen | LBracket | RBracket | Comma | Ellipsis
                 | Stray(c: char)

  datatype Qualifier = Const | Volatile | Restrict

  datatype Specifier = Qualified(q: Qualifier) | TypeWord(word: string) | Tagged(key: string, tag: string)

  datatype Declarator =
    | Abstract
    | Name(id: string)
    | Ptr(quals: seq<Qualifier>, inner: Declarator)
    | Paren(inner: Declarator)
    | Arr(inner: Declarator, count: Count)
    | Fun(inner: Declarator, params: Params)

  datatype Declaration = Declaration(specs: seq<Specifier>, declarator: Declarator)

  datatype Params = NoMore | AndMore | Param(first: Declaration, rest: Params)

  /** The words that are types: the basic type keywords and typedefs, and whether each is an array or function type. */
  type Types = map<string, bool>

  function Spelling(q: Qualifier): string {
    match q
    case Const => "const"
    case Volatile => "volatile"
    case Restrict => "restrict"
  }

  predicate IsTagKey(s: string) {
    s == "struct" || s == "union" || s == "enum"
  }

  predicate IsQualifier(s: string) {
    s == "const" || s == "volatile" || s == "restrict"
  }

  function QualifierOf(s: string): Qualifier {
    if s == "const" then Const else if s == "volatile" then Volatile else Restrict
  }

  predicate IsLetter(c: char) {
    'a' <= c <= 'z' || 'A' <= c <= 'Z' || c == '_'
  }

  predicate IsDigit(c: char) {
    '0' <= c <= '9'
  }

  predicate IsWordChar(c: char) {
    IsLetter(c) || IsDigit(c)
  }

  predicate IsIdentifier(s: string) {
    s != "" && IsLetter(s[0]) && forall k: nat :: k < |s| ==> IsWordChar(s[k])
  }

  /** The words of types are identifiers but no qualifiers or tag keywords, and void is one. */
  predicate GoodTypes(types: Types) {
    "void" in types && forall w :: w in types ==> IsIdentifier(w) && !IsQualifier(w) && !IsTagKey(w)
  }

  /** A word that can be declared. */
  predicate Declarable(types: Types, id: string) {
    id !in types && !IsQualifier(id) && !IsTagKey(id)
  }

  // ---- the tokens of a declaration ----

  function ShowQuals(qs: seq<Qualifier>): seq<Token> {
    if qs == [] then [] else [Word(Spelling(qs[0]))] + ShowQuals(qs[1..])
  }

  function ShowSpec(s: Specifier): seq<Token> {
    match s
    case Qualified(q) => [Word(Spelling(q))]
    case TypeWord(w) => [Word(w)]
    case Tagged(k, t) => [Word(k), Word(t)]
  }

  function ShowSpecs(ss: seq<Specifier>): seq<Token> {
    if ss == [] then [] else ShowSpec(ss[0]) + ShowSpecs(ss[1..])
  }

  function ShowCount(c: Count): seq<Token> {
    match c
    case Unsized => [LBracket, RBracket]
    case Sized(n) => [LBracket, Number(n), RBracket]
  }

  function Show(d: Declarator): seq<Token> {
    match d
    case Abstract => []
    case Name(id) => [Word(id)]
    case Ptr(qs, i) => [Star] + (ShowQuals(qs) + Show(i))
    case Paren(i) => [LParen] + (Show(i) + [RParen])
    case Arr(i, c) => Show(i) + ShowCount(c)
    case Fun(i, ps) => Show(i) + ([LParen] + ShowParams(ps))
  }

  function ShowDeclaration(d: Declaration): seq<Token> {
    ShowSpecs(d.specs) + Show(d.declarator)
  }

  /** The parameters up to the closing parenthesis. */
  function ShowParams(ps: Params): seq<Token> {
    match ps
    case NoMore => [RParen]
    case AndMore => [Ellipsis, RParen]
    case Param(d, rest) =>
      ShowDeclaration(d) + if rest.NoMore? then [RParen] else [Comma] + ShowParams(rest)
  }

  // ---- parsing ----

  datatype Parsed<T> = Fail | Got(value: T, rest: seq<Token>)

  function ParseQuals(ts: seq<Token>): (r: (seq<Qualifier>, seq<Token>))
    ensures |r.1| <= |ts|
  {
    if ts != [] && ts[0].Word? && IsQualifier(ts[0].text) then
      var (qs, rest) := ParseQuals(ts[1..]);
      ([QualifierOf(ts[0].text)] + qs, rest)
    else ([], ts)
  }

  function ParseSpecs(types: Types, ts: seq<Token>): (r: (seq<Specifier>, seq<Token>))
    ensures |r.1| <= |ts|
  {
    if ts == [] || !ts[0].Word? then ([], ts)
    else if IsQualifier(ts[0].text) then
      var (ss, rest) := ParseSpecs(types, ts[1..]);
      ([Qualified(QualifierOf(ts[0].text))] + ss, rest)
    else if ts[0].text in types then
      var (ss, rest) := ParseSpecs(types, ts[1..]);
      ([TypeWord(ts[0].text)] + ss, rest)
    else if IsTagKey(ts[0].text) && |ts| > 1 && ts[1].Word? then
      var (ss, rest) := ParseSpecs(types, ts[2..]);
      ([Tagged(ts[0].text, ts[1].text)] + ss, rest)
    else ([], ts)
  }

  /** A token that starts a declarator in parentheses, rather than a parameter list. */
  predicate StartsDeclarator(types: Types, t: Token) {
    t.Star? || t.LParen? || t.LBracket? || (t.Word? && Declarable(types, t.text))
  }

  function ParseDeclarator(types: Types, ts: seq<Token>): (r: Parsed<Declarator>)
    ensures r.Got? ==> |r.rest| <= |ts|
    decreases |ts|, 2
  {
    if ts != [] && ts[0].Star? then
      var (qs, after) := ParseQuals(ts[1..]);
      var r := ParseDeclarator(types, after);
      if r.Fail? then Fail else Got(Ptr(qs, r.value), r.rest)
    else ParseDirect(types, ts)
  }

  function ParseDirect(types: Types, ts: seq<Token>): (r: Parsed<Declarator>)
    ensures r.Got? ==> |r.rest| <= |ts|
    decreases |ts|, 1
  {
    if ts != [] && ts[0].Word? && Declarable(types, ts[0].text) then
      ParseSuffixes(types, Name(ts[0].text), ts[1..])
    else if |ts| > 1 && ts[0].LParen? && StartsDeclarator(types, ts[1]) then
      var r := ParseDeclarator(types, ts[1..]);
      if r.Fail? || r.rest == [] || !r.rest[0].RParen? then Fail
      else ParseSuffixes(types, Paren(r.value), r.rest[1..])
    else if ts != [] && (ts[0].LBracket? || ts[0].LParen?) then
      ParseSuffixesAt(types, Abstract, ts)
    else Got(Abstract, ts)
  }

  function ParseSuffixes(types: Types, d: Declarator, ts: seq<Token>): (r: Parsed<Declarator>)
    ensures r.Got? ==> |r.rest| <= |ts|
    decreases |ts|, 4
  {
    if ts != [] && (ts[0].LBracket? || ts[0].LParen?) then ParseSuffixesAt(types, d, ts) else Got(d, ts)
  }

  function ParseSuffixesAt(types: Types, d: Declarator, ts: seq<Token>): (r: Parsed<Declarator>)
    requires ts != [] && (ts[0].LBracket? || ts[0].LParen?)
    ensures r.Got? ==> |r.rest| <= |ts|
    decreases |ts|, 0
  {
    if ts[0].LBracket? then
      if |ts| > 1 && ts[1].RBracket? then ParseSuffixes(types, Arr(d, Unsized), ts[2..])
      else if |ts| > 2 && ts[1].Number? && ts[2].RBracket? then ParseSuffixes(types, Arr(d, Sized(ts[1].n)), ts[3..])
      else Fail
    else
      var r := ParseParams(types, ts[1..]);
      if r.Fail? || r.value.AndMore? then Fail else ParseSuffixes(types, Fun(d, r.value), r.rest)
  }

  /** The parameters up to and with the closing parenthesis. */
  function ParseParams(types: Types, ts: seq<Token>): (r: Parsed<Params>)
    ensures r.Got? ==> |r.rest| <= |ts|
    decreases |ts|, 5
  {
    if ts == [] then Fail
    else if ts[0].RParen? then Got(NoMore, ts[1..])
    else if ts[0].Ellipsis? then if |ts| > 1 && ts[1].RParen? then Got(AndMore, ts[2..]) else Fail
    else
      var d := ParseDeclaration(types, ts);
      if d.Fail? || d.rest == [] then Fail
      else if d.rest[0].RParen? then Got(Param(d.value, NoMore), d.rest[1..])
      else if d.rest[0].Comma? then
        var more := ParseParams(types, d.rest[1..]);
        if more.Fail? || more.value.NoMore? then Fail else Got(Param(d.value, more.value), more.rest)
      else Fail
  }

  function ParseDeclaration(types: Types, ts: seq<Token>): (r: Parsed<Declaration>)
    ensures r.Got? ==> |r.rest| <= |ts|
    decreases |ts|, 3
  {
    var (specs, after) := ParseSpecs(types, ts);
    var r := ParseDeclarator(types, after);
    if r.Fail? then Fail else Got(Declaration(specs, r.value), r.rest)
  }

  // ---- a declaration is parsed back from its tokens ----

  predicate ValidSpec(types: Types, s: Specifier) {
    match s
    case Qualified(_) => true
    case TypeWord(w) => w in types
    case Tagged(k, t) => IsTagKey(k) && IsIdentifier(t)
  }

  predicate Valid(types: Types, d: Declarator) {
    match d
    case Abstract => true
    case Name(id) => IsIdentifier(id) && Declarable(types, id)
    case Ptr(_, i) => Valid(types, i)
    case Paren(i) => i.Ptr? && Valid(types, i)
    case Arr(i, _) => !i.Ptr? && Valid(types, i)
    case Fun(i, ps) => !i.Ptr? && Valid(types, i) && !ps.AndMore? && ValidParams(types, ps)
  }

  predicate ValidDeclaration(types: Types, d: Declaration) {
    d.specs != [] && (forall s :: s in d.specs ==> ValidSpec(types, s)) && Valid(types, d.declarator)
  }

  predicate ValidParams(types: Types, ps: Params) {
    ps.Param? ==> ValidDeclaration(types, ps.first) && ValidParams(types, ps.rest)
  }

  /** What can follow a declaration: its end, or a comma or closing parenthesis. */
  predicate Ends(ts: seq<Token>) {
    ts == [] || ts[0].RParen? || ts[0].Comma?
  }

  predicate NoSpecifier(types: Types, ts: seq<Token>) {
    ts == [] || (ts[0].Word? ==> Declarable(types, ts[0].text))
  }

  /** ts does not go on with a name or a declarator in parentheses. */
  predicate NoPrimary(types: Types, ts: seq<Token>) {
    ts == [] || (!(ts[0].Word? && Declarable(types, ts[0].text))
      && !(|ts| > 1 && ts[0].LParen? && StartsDeclarator(types, ts[1])))
  }

  lemma SpellingBack(q: Qualifier)
    ensures IsQualifier(Spelling(q)) && QualifierOf(Spelling(q)) == q
  {
    assert "volatile"[0] != "restrict"[0];
  }

  lemma OneQualBack(q: Qualifier, more: seq<Token>)
    ensures ParseQuals([Word(Spelling(q))] + more) == ([q] + ParseQuals(more).0, ParseQuals(more).1)
  {
    SpellingBack(q);
    assert ([Word(Spelling(q))] + more)[1..] == more;
  }

  lemma NoQualHere(types: Types, rest: seq<Token>)
    requires NoSpecifier(types, rest)
    ensures ParseQuals(rest) == ([], rest)
  {}

  lemma {:induction false} QualsBack(types: Types, qs: seq<Qualifier>, rest: seq<Token>)
    requires NoSpecifier(types, rest)
    ensures ParseQuals(ShowQuals(qs) + rest) == (qs, rest)
  {
    hide ParseQuals, Spelling, NoSpecifier;
    if qs == [] {
      NoQualHere(types, rest);
      assert ShowQuals(qs) + rest == rest;
    } else {
      QualsBack(types, qs[1..], rest);
      OneQualBack(qs[0], ShowQuals(qs[1..]) + rest);
      assert ShowQuals(qs) + rest == [Word(Spelling(qs[0]))] + (ShowQuals(qs[1..]) + rest);
      assert qs == [qs[0]] + qs[1..];
    }
  }

  lemma OneSpecBack(types: Types, s: Specifier, more: seq<Token>)
    requires GoodTypes(types) && ValidSpec(types, s)
    ensures ParseSpecs(types, ShowSpec(s) + more) == ([s] + ParseSpecs(types, more).0, ParseSpecs(types, more).1)
  {
    var ts := ShowSpec(s) + more;
    match s
    case Qualified(q) =>
      SpellingBack(q);
      assert ts[1..] == more;
    case TypeWord(w) =>
      assert ts[1..] == more;
    case Tagged(k, t) =>
      TagKeyNoQualifier(k);
      assert ts[2..] == more;
  }

  lemma TagKeyNoQualifier(k: string)
    requires IsTagKey(k)
    ensures !IsQualifier(k)
  {
    assert "union"[0] != "const"[0];
  }

  lemma {:induction false} SpecsBack(types: Types, ss: seq<Specifier>, rest: seq<Token>)
    requires GoodTypes(types) && NoSpecifier(types, rest) && forall s :: s in ss ==> ValidSpec(types, s)
    ensures ParseSpecs(types, ShowSpecs(ss) + rest) == (ss, rest)
  {
    hide ShowSpec, ValidSpec, ParseSpecs, GoodTypes, NoSpecifier;
    if ss == [] {
      NoSpecHere(types, rest);
      assert ShowSpecs(ss) + rest == rest;
    } else {
      SpecsBack(types, ss[1..], rest);
      var more := ShowSpecs(ss[1..]) + rest;
      OneSpecBack(types, ss[0], more);
      assert ShowSpecs(ss) + rest == ShowSpec(ss[0]) + more;
      assert ss == [ss[0]] + ss[1..];
    }
  }

  lemma NoSpecHere(types: Types, rest: seq<Token>)
    requires NoSpecifier(types, rest)
    ensures ParseSpecs(types, rest) == ([], rest)
  {}

  lemma {:induction false} ShowNoSpecifier(types: Types, d: Declarator, rest: seq<Token>)
    requires Valid(types, d) && NoSpecifier(types, rest)
    ensures NoSpecifier(types, Show(d) + rest)
  {
    hide ShowCount, ShowParams, ShowQuals, Declarable, IsIdentifier, ValidParams;
    match d
    case Arr(i, c) =>
      CountNoPrimary(types, c, rest);
      ShowNoSpecifier(types, i, ShowCount(c) + rest);
      ArrTokens(i, c, rest);
    case Fun(i, ps) =>
      ShowNoSpecifier(types, i, [LParen] + (ShowParams(ps) + rest));
      FunTokens(i, ps, rest);
    case _ =>
  }

  lemma ParamsNoPrimary(types: Types, ps: Params, rest: seq<Token>)
    requires GoodTypes(types) && ValidParams(types, ps)
    ensures NoPrimary(types, [LParen] + (ShowParams(ps) + rest))
  {
    if ps.Param? {
      var d := ps.first;
      assert ValidSpec(types, d.specs[0]);
      assert ShowParams(ps)[0] == ShowSpec(d.specs[0])[0];
    }
  }

  // ---- single steps of the parser ----

  lemma StepAbstract(types: Types, ts: seq<Token>)
    requires NoPrimary(types, ts)
    ensures ParseDirect(types, ts) == ParseSuffixes(types, Abstract, ts)
  {}

  lemma StepName(types: Types, id: string, rest: seq<Token>)
    requires Declarable(types, id)
    ensures ParseDirect(types, [Word(id)] + rest) == ParseSuffixes(types, Name(id), rest)
  {
    assert ([Word(id)] + rest)[1..] == rest;
  }

  lemma StepParen(types: Types, i: Declarator, ts: seq<Token>, rest: seq<Token>)
    requires ts != [] && ts[0].Star? && ParseDeclarator(types, ts) == Got(i, [RParen] + rest)
    ensures ParseDirect(types, [LParen] + ts) == ParseSuffixes(types, Paren(i), rest)
  {
    hide ParseDeclarator, ParseSuffixes, ParseSuffixesAt;
    assert ([LParen] + ts)[1..] == ts && ([RParen] + rest)[1..] == rest;
  }

  lemma StepArr(types: Types, d: Declarator, c: Count, rest: seq<Token>)
    ensures ParseSuffixes(types, d, ShowCount(c) + rest) == ParseSuffixes(types, Arr(d, c), rest)
  {
    hide ParseParams;
    var ts := ShowCount(c) + rest;
    if c.Unsized? { assert ts[2..] == rest; } else { assert ts[3..] == rest; }
  }

  lemma StepFun(types: Types, d: Declarator, ps: Params, ts: seq<Token>, rest: seq<Token>)
    requires ParseParams(types, ts) == Got(ps, rest) && !ps.AndMore?
    ensures ParseSuffixes(types, d, [LParen] + ts) == ParseSuffixes(types, Fun(d, ps), rest)
  {
    hide ParseParams;
    assert ([LParen] + ts)[1..] == ts;
  }

  lemma StepEnd(types: Types, d: Declarator, rest: seq<Token>)
    requires Ends(rest)
    ensures ParseSuffixes(types, d, rest) == Got(d, rest)
  {}

  lemma StepPtr(types: Types, qs: seq<Qualifier>, d: Declarator, ts: seq<Token>, rest: seq<Token>)
    requires NoSpecifier(types, ts) && ParseDeclarator(types, ts) == Got(d, rest)
    ensures ParseDeclarator(types, [Star] + (ShowQuals(qs) + ts)) == Got(Ptr(qs, d), rest)
  {
    hide ParseDirect, ParseQuals, ShowQuals;
    QualsBack(types, qs, ts);
    assert ([Star] + (ShowQuals(qs) + ts))[1..] == ShowQuals(qs) + ts;
  }

  lemma StepNoStar(types: Types, ts: seq<Token>)
    requires ts == [] || !ts[0].Star?
    ensures ParseDeclarator(types, ts) == ParseDirect(types, ts)
  {}

  lemma StepDeclaration(types: Types, ss: seq<Specifier>, d: Declarator, ts: seq<Token>, rest: seq<Token>)
    requires GoodTypes(types) && NoSpecifier(types, ts) && (forall s :: s in ss ==> ValidSpec(types, s))
    requires ParseDeclarator(types, ts) == Got(d, rest)
    ensures ParseDeclaration(types, ShowSpecs(ss) + ts) == Got(Declaration(ss, d), rest)
  {
    hide ParseDeclarator, ParseSpecs, ShowSpecs, ValidSpec, NoSpecifier;
    SpecsBack(types, ss, ts);
  }

  lemma StepLastParam(types: Types, d: Declaration, ts: seq<Token>, rest: seq<Token>)
    requires ts != [] && ts[0].Word? && ParseDeclaration(types, ts) == Got(d, [RParen] + rest)
    ensures ParseParams(types, ts) == Got(Param(d, NoMore), rest)
  {
    hide ParseDeclaration;
    assert ([RParen] + rest)[1..] == rest;
  }

  lemma StepParam(types: Types, d: Declaration, ps: Params, ts: seq<Token>, mid: seq<Token>, rest: seq<Token>)
    requires ts != [] && ts[0].Word? && ParseDeclaration(types, ts) == Got(d, [Comma] + mid)
    requires ParseParams(types, mid) == Got(ps, rest) && !ps.NoMore?
    ensures ParseParams(types, ts) == Got(Param(d, ps), rest)
  {
    hide ParseDeclaration;
    assert ([Comma] + mid)[1..] == mid;
  }

  lemma StepNoParam(types: Types, ps: Params, rest: seq<Token>)
    requires !ps.Param?
    ensures ParseParams(types, ShowParams(ps) + rest) == Got(ps, rest)
  {
    var ts := ShowParams(ps) + rest;
    if ps.NoMore? { assert ts[1..] == rest; } else { assert ts[2..] == rest; }
  }

  // ---- the parser undoes Show ----

  lemma {:induction false} DirectBack(types: Types, d: Declarator, rest: seq<Token>)
    requires GoodTypes(types) && Valid(types, d) && !d.Ptr? && NoPrimary(types, rest)
    ensures ParseDirect(types, Show(d) + rest) == ParseSuffixes(types, d, rest)
    decreases d, 0
  {
    hide ParseDirect, ParseDeclarator, ParseSuffixes, ParseParams, ShowQuals, ShowCount, ShowParams, GoodTypes, Declarable, NoPrimary, ValidParams, NoSpecifier;
    match d
    case Abstract =>
      StepAbstract(types, rest);
      assert Show(d) + rest == rest;
    case Name(id) =>
      StepName(types, id, rest);
    case Paren(i) =>
      DeclaratorBack(types, i, [RParen] + rest);
      StepParen(types, i, Show(i) + ([RParen] + rest), rest);
      ParenTokens(i, rest);
    case Arr(i, c) =>
      CountNoPrimary(types, c, rest);
      DirectBack(types, i, ShowCount(c) + rest);
      StepArr(types, i, c, rest);
      ArrTokens(i, c, rest);
    case Fun(i, ps) =>
      ParamsNoPrimary(types, ps, rest);
      ParamsBack(types, ps, rest);
      DirectBack(types, i, [LParen] + (ShowParams(ps) + rest));
      StepFun(types, i, ps, ShowParams(ps) + rest, rest);
      FunTokens(i, ps, rest);
  }

  lemma ParenTokens(i: Declarator, rest: seq<Token>)
    ensures Show(Paren(i)) + rest == [LParen] + (Show(i) + ([RParen] + rest))
  {}

  lemma ArrTokens(i: Declarator, c: Count, rest: seq<Token>)
    ensures Show(Arr(i, c)) + rest == Show(i) + (ShowCount(c) + rest)
  {}

  lemma FunTokens(i: Declarator, ps: Params, rest: seq<Token>)
    ensures Show(Fun(i, ps)) + rest == Show(i) + ([LParen] + (ShowParams(ps) + rest))
  {}

  lemma CountNoPrimary(types: Types, c: Count, rest: seq<Token>)
    ensures NoPrimary(types, ShowCount(c) + rest) && NoSpecifier(types, ShowCount(c) + rest)
    ensures ShowCount(c) + rest != [] && (ShowCount(c) + rest)[0] == LBracket
  {}

  lemma EndsNoPrimary(types: Types, rest: seq<Token>)
    requires Ends(rest)
    ensures NoPrimary(types, rest) && NoSpecifier(types, rest)
  {}

  lemma {:induction false} DeclaratorBack(types: Types, d: Declarator, rest: seq<Token>)
    requires GoodTypes(types) && Valid(types, d) && Ends(rest)
    ensures ParseDeclarator(types, Show(d) + rest) == Got(d, rest)
    decreases d, 1
  {
    hide ParseDirect, ParseDeclarator, ParseSuffixes, ShowQuals, ShowCount, ShowParams, GoodTypes, Declarable, NoPrimary, NoSpecifier, Ends;
    EndsNoPrimary(types, rest);
    if d.Ptr? {
      DeclaratorBack(types, d.inner, rest);
      ShowNoSpecifier(types, d.inner, rest);
      StepPtr(types, d.quals, d.inner, Show(d.inner) + rest, rest);
      assert Show(d) + rest == [Star] + (ShowQuals(d.quals) + (Show(d.inner) + rest));
    } else {
      DirectBack(types, d, rest);
      EndsNoStar(rest);
      NoStar(types, d, rest);
      StepNoStar(types, Show(d) + rest);
      StepEnd(types, d, rest);
    }
  }

  lemma EndsNoStar(rest: seq<Token>)
    requires Ends(rest)
    ensures rest == [] || !rest[0].Star?
  {}

  lemma {:induction false} NoStar(types: Types, d: Declarator, rest: seq<Token>)
    requires Valid(types, d) && !d.Ptr? && (rest == [] || !rest[0].Star?)
    ensures Show(d) + rest == [] || !(Show(d) + rest)[0].Star?
  {
    hide ShowCount, ShowParams, ShowQuals, Declarable, IsIdentifier, ValidParams;
    match d
    case Arr(i, c) =>
      CountNoPrimary(types, c, rest);
      NoStar(types, i, ShowCount(c) + rest);
      ArrTokens(i, c, rest);
    case Fun(i, ps) =>
      NoStar(types, i, [LParen] + (ShowParams(ps) + rest));
      FunTokens(i, ps, rest);
    case _ =>
  }

  lemma {:induction false} DeclarationBack(types: Types, d: Declaration, rest: seq<Token>)
    requires GoodTypes(types) && ValidDeclaration(types, d) && Ends(rest)
    ensures ParseDeclaration(types, ShowDeclaration(d) + rest) == Got(d, rest)
    decreases d, 2
  {
    hide ParseDeclarator, ParseDeclaration, Show, ShowSpecs, GoodTypes, NoSpecifier, Ends;
    EndsNoPrimary(types, rest);
    DeclaratorBack(types, d.declarator, rest);
    ShowNoSpecifier(types, d.declarator, rest);
    StepDeclaration(types, d.specs, d.declarator, Show(d.declarator) + rest, rest);
    assert ShowDeclaration(d) + rest == ShowSpecs(d.specs) + (Show(d.declarator) + rest);
  }

  lemma StartsWithWord(types: Types, d: Declaration)
    requires ValidDeclaration(types, d)
    ensures ShowDeclaration(d) != [] && ShowDeclaration(d)[0].Word?
  {}

  lemma {:induction false} ParamsBack(types: Types, ps: Params, rest: seq<Token>)
    requires GoodTypes(types) && ValidParams(types, ps)
    ensures ParseParams(types, ShowParams(ps) + rest) == Got(ps, rest)
    decreases ps, 3
  {
    hide ParseParams, ParseDeclaration, ShowDeclaration, GoodTypes, ValidDeclaration;
    if !ps.Param? {
      StepNoParam(types, ps, rest);
    } else {
      StartsWithWord(types, ps.first);
      if ps.rest.NoMore? {
        var after := [RParen] + rest;
        DeclarationBack(types, ps.first, after);
        StepLastParam(types, ps.first, ShowDeclaration(ps.first) + after, rest);
        assert ShowParams(ps) + rest == ShowDeclaration(ps.first) + after;
      } else {
        var mid := ShowParams(ps.rest) + rest;
        ParamsBack(types, ps.rest, rest);
        DeclarationBack(types, ps.first, [Comma] + mid);
        StepParam(types, ps.first, ps.rest, ShowDeclaration(ps.first) + ([Comma] + mid), mid, rest);
        assert ShowParams(ps) + rest == ShowDeclaration(ps.first) + ([Comma] + mid);
      }
    }
  }
}
