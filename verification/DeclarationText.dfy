/** The text gen_type, gen_formal_list_for_type and affix_data_type of c-aux-info.c write, and reading it back. */
module DeclarationText {
  import opened Declarators
  import opened TypePrinting

  // ---- numbers ----

  function Digit(n: nat): char
    requires n < 10
  {
    "0123456789"[n]
  }

  /** What %d prints. */
  function Decimal(n: nat): string {
    if n < 10 then [Digit(n)] else Decimal(n / 10) + [Digit(n % 10)]
  }

  function Value(s: string): nat {
    if s == "" then 0 else 10 * Value(s[..|s| - 1]) + if IsDigit(s[|s| - 1]) then s[|s| - 1] as int - '0' as int else 0
  }

  lemma DigitIs(n: nat)
    requires n < 10
    ensures IsDigit(Digit(n)) && Digit(n) as int - '0' as int == n
  {}

  lemma {:induction false} DecimalValue(n: nat)
    ensures Value(Decimal(n)) == n && Decimal(n) != "" && forall k: nat :: k < |Decimal(n)| ==> IsDigit(Decimal(n)[k])
  {
    if n < 10 {
      DigitIs(n);
      assert Value([]) == 0;
      assert Decimal(n)[..0] == [];
    } else {
      DecimalValue(n / 10);
      DigitIs(n % 10);
      assert Decimal(n)[..|Decimal(n)| - 1] == Decimal(n / 10);
    }
  }

  function Pow10(k: nat): nat {
    if k == 0 then 1 else 10 * Pow10(k - 1)
  }

  /** k digits are enough exactly for the numbers below the k-th power of ten. */
  lemma {:induction false} DecimalLength(n: nat, k: nat)
    requires k > 0
    ensures |Decimal(n)| <= k <==> n < Pow10(k)
  {
    if n >= 10 && k > 1 { DecimalLength(n / 10, k - 1); }
    if n >= 10 && k == 1 { DecimalValue(n / 10); }
    if n < 10 { Pow10AtLeast(k); }
  }

  lemma {:induction false} Pow10AtLeast(k: nat)
    ensures Pow10(k) >= if k == 0 then 1 else 10
  {
    if k > 0 { Pow10AtLeast(k - 1); }
  }

  // ---- the buffer of gen_type ----

  /** `char buff[10]` */
  const BUFF_SIZE := 10

  /** The text of an array count, with the NUL behind it, fits the buffer it is written to exactly for counts below
      10000000. */
  lemma CountFits(n: nat)
    ensures |CountText(Sized(n))| + 1 <= BUFF_SIZE <==> n < 10_000_000
  {
    DecimalLength(n, 7);
    assert Pow10(4) == 10_000;
    assert Pow10(7) == 10 * (10 * (10 * Pow10(4)));
  }

  /** The count of an array of 10000000 elements does not fit. */
  lemma CountOverrun()
    ensures |CountText(Sized(10_000_000))| + 1 == BUFF_SIZE + 1
  {
    DecimalLength(10_000_000, 7);
    DecimalLength(10_000_000, 8);
    assert Pow10(4) == 10_000;
    assert Pow10(7) == 10 * (10 * (10 * Pow10(4))) && Pow10(8) == 10 * Pow10(7);
  }

  /** No array count overruns the buffer while the type is printed. */
  predicate CountsFit(ansi: bool, t: Type)
    decreases t
  {
    match t
    case Named(_, _) => true
    case Pointer(to, _) => CountsFit(ansi, to)
    case Array(e, c, _) => (c.Sized? ==> c.n < 10_000_000) && CountsFit(ansi, e)
    case Function(r, args, _) => (ansi ==> CountsFitChain(args)) && CountsFit(ansi, r)
  }

  /** Formals are always printed in the ANSI style. */
  predicate CountsFitChain(args: Chain)
    decreases args
  {
    args.Arg? ==> CountsFit(true, args.head) && CountsFitChain(args.tail)
  }

  // ---- reading ----

  function WordSpan(s: string): (n: nat)
    ensures n <= |s|
  {
    if s != "" && IsWordChar(s[0]) then 1 + WordSpan(s[1..]) else 0
  }

  function DigitSpan(s: string): (n: nat)
    ensures n <= |s|
  {
    if s != "" && IsDigit(s[0]) then 1 + DigitSpan(s[1..]) else 0
  }

  function AfterComment(s: string): (r: string)
    ensures |r| <= |s|
  {
    if s == "" then "" else if "*/" <= s then s[2..] else AfterComment(s[1..])
  }

  /** The tokens of a text; blanks and comments are dropped. */
  function Lex(s: string): seq<Token>
    decreases |s|
  {
    if s == "" then []
    else if s[0] == ' ' then Lex(s[1..])
    else if s[0] == '*' then [Star] + Lex(s[1..])
    else if s[0] == '(' then [LParen] + Lex(s[1..])
    else if s[0] == ')' then [RParen] + Lex(s[1..])
    else if s[0] == '[' then [LBracket] + Lex(s[1..])
    else if s[0] == ']' then [RBracket] + Lex(s[1..])
    else if s[0] == ',' then [Comma] + Lex(s[1..])
    else if "..." <= s then [Ellipsis] + Lex(s[3..])
    else if "/*" <= s then Lex(AfterComment(s[2..]))
    else if IsLetter(s[0]) then [Word(s[..WordSpan(s)])] + Lex(s[WordSpan(s)..])
    else if IsDigit(s[0]) then [Number(Value(s[..DigitSpan(s)]))] + Lex(s[DigitSpan(s)..])
    else [Stray(s[0])] + Lex(s[1..])
  }

  // ---- the text of a declaration ----

  function QualText(qs: seq<Qualifier>): string {
    if qs == [] then "" else Spelling(qs[0]) + " " + QualText(qs[1..])
  }

  function CountText(c: Count): string {
    match c
    case Unsized => "[]"
    case Sized(n) => "[" + Decimal(n) + "]"
  }

  function SpecText(s: Specifier): string {
    match s
    case Qualified(q) => Spelling(q)
    case TypeWord(w) => w
    case Tagged(k, t) => k + " " + t
  }

  function SpecsText(ss: seq<Specifier>): string {
    if ss == [] then "" else SpecText(ss[0]) + " " + SpecsText(ss[1..])
  }

  /** The blank after the data type is left out when nothing but the data type is printed. */
  predicate Bare(d: Declaration) {
    d.declarator.Abstract? && d.specs != [] && forall q :: Qualified(q) !in d.specs
  }

  function DeclText(d: Declaration): string
    decreases d
  {
    var t := SpecsText(d.specs) + Text(d.declarator);
    if Bare(d) && t != "" then t[..|t| - 1] else t
  }

  function Text(d: Declarator): string
    decreases d
  {
    match d
    case Abstract => ""
    case Name(id) => id
    case Ptr(qs, i) => "*" + QualText(qs) + Text(i)
    case Paren(i) => "(" + Text(i) + ")"
    case Arr(i, c) => Text(i) + CountText(c)
    case Fun(i, ps) => Text(i) + " (" + (if ps.NoMore? then "/* ??? */" else ParamsText(ps)) + ")"
  }

  function ParamsText(ps: Params): string
    decreases ps
  {
    match ps
    case NoMore => ""
    case AndMore => "..."
    case Param(d, rest) => DeclText(d) + if rest.NoMore? then "" else ", " + ParamsText(rest)
  }

  // ---- reading the text gives the tokens ----

  /** rest does not go on with the last word. */
  predicate Apart(rest: string) {
    rest == "" || !IsWordChar(rest[0])
  }

  lemma {:induction false} WordSpanOf(w: string, rest: string)
    requires (forall k: nat :: k < |w| ==> IsWordChar(w[k])) && Apart(rest)
    ensures WordSpan(w + rest) == |w|
  {
    if w == "" {
      assert w + rest == rest;
    } else {
      WordSpanOf(w[1..], rest);
      assert (w + rest)[1..] == w[1..] + rest;
    }
  }

  lemma {:induction false} DigitSpanOf(w: string, rest: string)
    requires (forall k: nat :: k < |w| ==> IsDigit(w[k])) && Apart(rest)
    ensures DigitSpan(w + rest) == |w|
  {
    if w == "" {
      assert w + rest == rest;
    } else {
      DigitSpanOf(w[1..], rest);
      assert (w + rest)[1..] == w[1..] + rest;
    }
  }

  lemma LexWord(w: string, rest: string)
    requires IsIdentifier(w) && Apart(rest)
    ensures Lex(w + rest) == [Word(w)] + Lex(rest)
  {
    var s := w + rest;
    WordSpanOf(w, rest);
    assert s[..|w|] == w && s[|w|..] == rest && s[0] == w[0];
  }

  lemma LexNumber(n: nat, rest: string)
    requires Apart(rest)
    ensures Lex(Decimal(n) + rest) == [Number(n)] + Lex(rest)
  {
    var w := Decimal(n);
    var s := w + rest;
    DecimalValue(n);
    DigitSpanOf(w, rest);
    assert s[..|w|] == w && s[|w|..] == rest && s[0] == w[0];
  }

  function Punctuation(c: char): seq<Token>
    requires c in {' ', '*', '(', ')', '[', ']', ','}
  {
    match c
    case ' ' => []
    case '*' => [Star]
    case '(' => [LParen]
    case ')' => [RParen]
    case '[' => [LBracket]
    case ']' => [RBracket]
    case _ => [Comma]
  }

  lemma LexMark(c: char, rest: string)
    requires c in {' ', '*', '(', ')', '[', ']', ','}
    ensures Lex([c] + rest) == Punctuation(c) + Lex(rest)
  {
    assert ([c] + rest)[1..] == rest;
  }

  lemma LexWordBlank(w: string, rest: string)
    requires IsIdentifier(w)
    ensures Lex(w + " " + rest) == [Word(w)] + Lex(rest)
  {
    hide Lex;
    LexWord(w, " " + rest);
    LexMark(' ', rest);
    assert w + " " + rest == w + (" " + rest);
  }

  lemma SpellingIdentifier(q: Qualifier)
    ensures IsIdentifier(Spelling(q))
  {}

  lemma TagKeyIdentifier(k: string)
    requires IsTagKey(k)
    ensures IsIdentifier(k)
  {}

  lemma {:induction false} LexQuals(qs: seq<Qualifier>, rest: string)
    ensures Lex(QualText(qs) + rest) == ShowQuals(qs) + Lex(rest)
  {
    hide Lex, Spelling;
    if qs == [] {
      assert QualText(qs) + rest == rest;
    } else {
      SpellingIdentifier(qs[0]);
      LexWordBlank(Spelling(qs[0]), QualText(qs[1..]) + rest);
      LexQuals(qs[1..], rest);
      assert QualText(qs) + rest == Spelling(qs[0]) + " " + (QualText(qs[1..]) + rest);
    }
  }

  lemma LexSpec(types: Types, s: Specifier, rest: string)
    requires GoodTypes(types) && ValidSpec(types, s) && Apart(rest)
    ensures Lex(SpecText(s) + rest) == ShowSpec(s) + Lex(rest)
  {
    hide Lex, Spelling, IsIdentifier;
    match s
    case Qualified(q) =>
      SpellingIdentifier(q);
      LexWord(Spelling(q), rest);
    case TypeWord(w) =>
      LexWord(w, rest);
    case Tagged(k, t) =>
      TagKeyIdentifier(k);
      LexWordBlank(k, t + rest);
      LexWord(t, rest);
      assert k + " " + t + rest == k + " " + (t + rest);
  }

  lemma {:induction false} LexSpecs(types: Types, ss: seq<Specifier>, rest: string)
    requires GoodTypes(types) && ValidSpecs(types, ss)
    ensures Lex(SpecsText(ss) + rest) == ShowSpecs(ss) + Lex(rest)
  {
    hide Lex, SpecText, ShowSpec, ValidSpec, GoodTypes;
    if ss == [] {
      assert SpecsText(ss) + rest == rest;
    } else {
      var more := SpecsText(ss[1..]) + rest;
      LexSpec(types, ss[0], " " + more);
      LexMark(' ', more);
      LexSpecs(types, ss[1..], rest);
      assert SpecsText(ss) + rest == SpecText(ss[0]) + (" " + more);
    }
  }

  /** Without the last blank the specifiers read the same. */
  lemma {:induction false} LexBare(types: Types, ss: seq<Specifier>, rest: string)
    requires GoodTypes(types) && ValidSpecs(types, ss) && ss != [] && Apart(rest)
    ensures SpecsText(ss) != "" && Lex(SpecsText(ss)[..|SpecsText(ss)| - 1] + rest) == ShowSpecs(ss) + Lex(rest)
  {
    hide Lex, SpecText, ShowSpec, ValidSpec, GoodTypes;
    var t := SpecsText(ss);
    if |ss| == 1 {
      LexSpec(types, ss[0], rest);
      assert t == SpecText(ss[0]) + " " + SpecsText(ss[1..]) && SpecsText(ss[1..]) == "";
      assert t[..|t| - 1] + rest == SpecText(ss[0]) + rest;
    } else {
      var u := SpecsText(ss[1..]);
      LexBare(types, ss[1..], rest);
      var more := u[..|u| - 1] + rest;
      LexSpec(types, ss[0], " " + more);
      LexMark(' ', more);
      assert t[..|t| - 1] + rest == SpecText(ss[0]) + (" " + more);
    }
  }

  lemma LexCount(c: Count, rest: string)
    ensures Lex(CountText(c) + rest) == ShowCount(c) + Lex(rest)
  {
    hide Lex, Decimal;
    match c
    case Unsized =>
      LexMark('[', "]" + rest);
      LexMark(']', rest);
      assert CountText(c) + rest == "[" + ("]" + rest);
    case Sized(n) =>
      LexMark('[', Decimal(n) + ("]" + rest));
      LexNumber(n, "]" + rest);
      LexMark(']', rest);
      assert CountText(c) + rest == "[" + (Decimal(n) + ("]" + rest));
  }

  lemma LexUnknown(rest: string)
    ensures Lex("/* ??? */" + rest) == Lex(rest)
  {
    var s := "/* ??? */" + rest;
    assert s[2..] == " ??? */" + rest;
    assert AfterComment(s[2..]) == rest by {
      SkipComment(rest);
    }
  }

  lemma SkipChar(c: char, rest: string)
    requires c != '*'
    ensures AfterComment([c] + rest) == AfterComment(rest)
  {
    assert ([c] + rest)[0] != "*/"[0];
    assert ([c] + rest)[1..] == rest;
  }

  lemma SkipComment(rest: string)
    ensures AfterComment(" ??? */" + rest) == rest
  {
    hide AfterComment;
    SkipChar(' ', "??? */" + rest);
    SkipChar('?', "?? */" + rest);
    SkipChar('?', "? */" + rest);
    SkipChar('?', " */" + rest);
    SkipChar(' ', "*/" + rest);
    assert AfterComment("*/" + rest) == rest by {
      CommentEnds(rest);
    }
    assert " ??? */" + rest == [' '] + ("??? */" + rest);
    assert "??? */" + rest == ['?'] + ("?? */" + rest);
    assert "?? */" + rest == ['?'] + ("? */" + rest);
    assert "? */" + rest == ['?'] + (" */" + rest);
    assert " */" + rest == [' '] + ("*/" + rest);
  }

  lemma CommentEnds(rest: string)
    ensures AfterComment("*/" + rest) == rest
  {
    assert ("*/" + rest)[2..] == rest;
  }

  lemma LexDots(rest: string)
    ensures Lex("..." + rest) == [Ellipsis] + Lex(rest)
  {
    assert ("..." + rest)[3..] == rest;
  }

  // The pieces the text of a declarator is made of.

  lemma PtrText(qs: seq<Qualifier>, i: Declarator, rest: string)
    ensures Text(Ptr(qs, i)) + rest == "*" + (QualText(qs) + (Text(i) + rest))
  {}

  lemma ParenText(i: Declarator, rest: string)
    ensures Text(Paren(i)) + rest == "(" + (Text(i) + (")" + rest))
  {}

  lemma ArrText(i: Declarator, c: Count, rest: string)
    ensures Text(Arr(i, c)) + rest == Text(i) + (CountText(c) + rest)
  {}

  lemma FunText(i: Declarator, ps: Params, rest: string)
    ensures Text(Fun(i, ps)) + rest
         == Text(i) + (" " + ("(" + ((if ps.NoMore? then "/* ??? */" else ParamsText(ps)) + (")" + rest))))
  {}

  // And its tokens.

  lemma NoShow(ts: seq<Token>)
    ensures Show(Abstract) + ts == ts
  {}

  lemma NameShow(id: string)
    ensures Show(Name(id)) == [Word(id)]
  {}

  lemma PtrShow(qs: seq<Qualifier>, i: Declarator, ts: seq<Token>)
    ensures Show(Ptr(qs, i)) + ts == [Star] + (ShowQuals(qs) + (Show(i) + ts))
  {}

  lemma ParenShow(i: Declarator, ts: seq<Token>)
    ensures Show(Paren(i)) + ts == [LParen] + (Show(i) + ([RParen] + ts))
  {}

  lemma ArrShow(i: Declarator, c: Count, ts: seq<Token>)
    ensures Show(Arr(i, c)) + ts == Show(i) + (ShowCount(c) + ts)
  {}

  lemma FunShow(i: Declarator, ps: Params, ts: seq<Token>)
    ensures Show(Fun(i, ps)) + ts == Show(i) + ([LParen] + (ShowParams(ps) + ts))
  {}

  lemma {:induction false} LexDeclarator(types: Types, d: Declarator, rest: string)
    requires GoodTypes(types) && Valid(types, d) && Apart(rest)
    ensures Lex(Text(d) + rest) == Show(d) + Lex(rest)
    decreases d, 0
  {
    hide Lex, QualText, ShowQuals, CountText, ShowCount, ParamsText, ShowParams, Text, Show, GoodTypes, IsIdentifier, Declarable, ValidParams;
    match d
    case Abstract =>
      NoText(rest);
      NoShow(Lex(rest));
    case Name(id) =>
      LexWord(id, rest);
      NameText(id);
      NameShow(id);
    case Ptr(qs, i) =>
      LexMark('*', QualText(qs) + (Text(i) + rest));
      LexQuals(qs, Text(i) + rest);
      LexDeclarator(types, i, rest);
      PtrText(qs, i, rest);
      PtrShow(qs, i, Lex(rest));
    case Paren(i) =>
      LexMark('(', Text(i) + (")" + rest));
      LexDeclarator(types, i, ")" + rest);
      LexMark(')', rest);
      ParenText(i, rest);
      ParenShow(i, Lex(rest));
    case Arr(i, c) =>
      CountApart(c, rest);
      LexDeclarator(types, i, CountText(c) + rest);
      LexCount(c, rest);
      ArrText(i, c, rest);
      ArrShow(i, c, Lex(rest));
    case Fun(i, ps) =>
      var inside := (if ps.NoMore? then "/* ??? */" else ParamsText(ps)) + (")" + rest);
      LexDeclarator(types, i, " " + ("(" + inside));
      LexMark(' ', "(" + inside);
      LexMark('(', inside);
      LexInside(types, ps, rest);
      FunText(i, ps, rest);
      FunShow(i, ps, Lex(rest));
  }

  lemma NoText(rest: string)
    ensures Text(Abstract) + rest == rest
  {}

  lemma NameText(id: string)
    ensures Text(Name(id)) == id
  {}

  lemma CountApart(c: Count, rest: string)
    ensures Apart(CountText(c) + rest)
  {}

  lemma {:induction false} LexInside(types: Types, ps: Params, rest: string)
    requires GoodTypes(types) && ValidParams(types, ps)
    ensures Lex((if ps.NoMore? then "/* ??? */" else ParamsText(ps)) + (")" + rest)) == ShowParams(ps) + Lex(rest)
    decreases ps, 1
  {
    hide Lex, ParamsText, GoodTypes, ValidParams;
    if ps.NoMore? {
      LexUnknown(")" + rest);
      LexMark(')', rest);
    } else {
      LexParams(types, ps, rest);
    }
  }

  lemma {:induction false} LexDeclaration(types: Types, d: Declaration, rest: string)
    requires GoodTypes(types) && ValidDeclaration(types, d) && Apart(rest)
    ensures Lex(DeclText(d) + rest) == ShowDeclaration(d) + Lex(rest)
    decreases d, 2
  {
    hide Lex, SpecsText, Text, Show, ShowSpecs, GoodTypes, ValidSpec;
    if Bare(d) {
      LexBare(types, d.specs, rest);
      BareText(d, rest);
      NothingShown();
    } else {
      LexSpecs(types, d.specs, Text(d.declarator) + rest);
      LexDeclarator(types, d.declarator, rest);
      assert DeclText(d) + rest == SpecsText(d.specs) + (Text(d.declarator) + rest);
    }
  }

  lemma NothingShown()
    ensures Show(Abstract) == []
  {}

  lemma BareText(d: Declaration, rest: string)
    requires Bare(d) && SpecsText(d.specs) != ""
    ensures DeclText(d) == SpecsText(d.specs)[..|SpecsText(d.specs)| - 1]
  {
    assert SpecsText(d.specs) + Text(d.declarator) == SpecsText(d.specs);
  }

  lemma {:induction false} LexParams(types: Types, ps: Params, rest: string)
    requires GoodTypes(types) && ValidParams(types, ps)
    ensures Lex(ParamsText(ps) + (")" + rest)) == ShowParams(ps) + Lex(rest)
    decreases ps, 0
  {
    hide Lex, DeclText, ParamsText, ShowParams, ShowDeclaration, GoodTypes, ValidDeclaration;
    LexMark(')', rest);
    match ps
    case NoMore =>
      EmptyParams(rest);
    case AndMore =>
      LexDots(")" + rest);
      EmptyParams(rest);
    case Param(d, more) =>
      if more.NoMore? {
        LexDeclaration(types, d, ")" + rest);
        OneParam(d, rest);
      } else {
        var after := ParamsText(more) + (")" + rest);
        LexDeclaration(types, d, "," + (" " + after));
        LexMark(',', " " + after);
        LexMark(' ', after);
        LexParams(types, more, rest);
        ManyParams(d, more, rest);
      }
  }

  lemma EmptyParams(rest: string)
    ensures ParamsText(NoMore) + (")" + rest) == ")" + rest && ShowParams(NoMore) == [RParen]
    ensures ParamsText(AndMore) == "..." && ShowParams(AndMore) == [Ellipsis, RParen]
  {}

  lemma OneParam(d: Declaration, rest: string)
    ensures ParamsText(Param(d, NoMore)) + (")" + rest) == DeclText(d) + (")" + rest)
    ensures ShowParams(Param(d, NoMore)) == ShowDeclaration(d) + [RParen]
  {
    hide DeclText, ShowDeclaration;
    assert DeclText(d) + "" == DeclText(d);
  }

  lemma ManyParams(d: Declaration, more: Params, rest: string)
    requires !more.NoMore?
    ensures ParamsText(Param(d, more)) + (")" + rest) == DeclText(d) + ("," + (" " + (ParamsText(more) + (")" + rest))))
    ensures ShowParams(Param(d, more)) == ShowDeclaration(d) + [Comma] + ShowParams(more)
  {
    hide DeclText, ShowDeclaration;
    var m := ParamsText(more);
    assert ParamsText(Param(d, more)) == DeclText(d) + (", " + m);
    assert ", " + m == "," + (" " + m);
  }
}
