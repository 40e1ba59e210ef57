/** The whole gate: text to tokens to tree to verdict. */
module TokenFree {
  import opened Wrappers
  import opened ConditionAst
  import opened Lexical
  import opened ScannerAgreement
  import opened Grammar
  import opened Derivation
  import opened ParserSoundness
  import opened ParserCompleteness
  import opened JqEvaluation
  import opened TaintAnalysis
  import opened NonInterference
  import opened Lexer
  import opened Parser

  /** `n` is the tree the condition text stands for. */
  ghost predicate Means(text: string, n: Node) {
    && SourceShape(text)
    && LexFrom(text, 0, |text|).Some?
    && (var tokens := LexFrom(text, 0, |text|).value.tokens; DerivesAny(Pipe, text, tokens, 0, |tokens| - 1, n))
  }

  /** The tokens and the depth the scan of the text takes are within the bounds. */
  ghost predicate WithinBudget(text: string) {
    var lexed := LexFrom(text, 0, |text|);
    lexed.Some? && Affordable(|lexed.value.tokens|, lexed.value.nest, 0, 0) && ParseWithin(text, lexed.value.tokens)
  }

  ghost predicate ParseWithin(text: string, tokens: seq<Token>) {
    WellLexed(text, tokens) && Parse(Pipe, text, tokens, 0).Some? &&
    Affordable(Parse(Pipe, text, tokens, 0).value.spent, Parse(Pipe, text, tokens, 0).value.nest, |tokens|, 0)
  }

  /** The parse that consumes all tokens is the one derivation there is. */
  lemma ParseIsMeaning(text: string, n: Node)
    requires SourceShape(text) && LexFrom(text, 0, |text|).Some?
    ensures var tokens := LexFrom(text, 0, |text|).value.tokens;
            WellLexed(text, tokens) && (Means(text, n) <==> Found(Parse(Pipe, text, tokens, 0), n, |tokens| - 1))
  {
    ConditionWellLexed(text);
    var tokens := LexFrom(text, 0, |text|).value.tokens;
    EndContinuesNothing(Pipe, tokens[|tokens| - 1]);
    if Means(text, n) {
      AnyComplete(Pipe, text, tokens, 0, |tokens| - 1, n);
    } else if Found(Parse(Pipe, text, tokens, 0), n, |tokens| - 1) {
      var _ := ParseSound(Pipe, text, tokens, 0);
    }
  }

  /** The grammar is unambiguous: a text stands for at most one tree. */
  lemma MeaningUnique(text: string, a: Node, b: Node)
    requires Means(text, a) && Means(text, b)
    ensures a == b
  {
    ParseIsMeaning(text, a);
    ParseIsMeaning(text, b);
  }

  /** A text within the budget whose tree passes the taint rule. */
  ghost predicate Evaluable(text: string) {
    WithinBudget(text) && exists n :: Means(text, n) && AssertSafe(n)
  }

  /**
   Accepts exactly the texts within the budget whose tree passes the taint rule; what is
   accepted evaluates alike over all contexts that agree outside the identity claims.
   */
  method AssertTokenFreeEvaluable(text: string) returns (r: Result<Node>)
    ensures r.Ok? <==> Evaluable(text)
    ensures r.Ok? ==> Means(text, r.value) && AssertSafe(r.value)
    ensures r.Ok? ==> forall g, a, b :: SameContext(g, a, b) ==> Eval(g, r.value, map[], a) == Eval(g, r.value, map[], b)
  {
    var shaped := AssertSourceShape(text);
    if !shaped {
      return Refused;
    }
    var budget := new Budget();
    var tokens := Lex(text, budget, 0, |text|);
    if tokens.Refused? {
      return Refused;
    }
    ConditionWellLexed(text);
    var parser := new TokenParser(text, tokens.value, budget);
    var program := parser.ParsePipe();
    forall n ensures Means(text, n) <==> Found(Parse(Pipe, text, tokens.value, 0), n, |tokens.value| - 1) {
      ParseIsMeaning(text, n);
    }
    if program.Refused? || parser.Peek().kind != END {
      return Refused;
    }
    if !AssertSafe(program.value) {
      return Refused;
    }
    forall g, a, b | SameContext(g, a, b) ensures Eval(g, program.value, map[], a) == Eval(g, program.value, map[], b) {
      AcceptedConditionIgnoresClaims(g, program.value, a, b);
    }
    return program;
  }

  // ---------- builtins ----------

  /** Every call in the tree names an allowlisted builtin at a permitted arity. */
  predicate CallsAllowlisted(n: Node) {
    match n
    case String(_, _, parts) => forall k :: 0 <= k < |parts| ==> CallsAllowlisted(parts[k])
    case Projection(_, source, suffixes) =>
      CallsAllowlisted(source) && forall k :: 0 <= k < |suffixes| ==> SuffixAllowlisted(suffixes[k])
    case Call(_, name, arguments) =>
      Allowlisted(name, |arguments|) && forall k :: 0 <= k < |arguments| ==> CallsAllowlisted(arguments[k])
    case Binary(_, _, left, right) => CallsAllowlisted(left) && CallsAllowlisted(right)
    case Negate(_, operand) => CallsAllowlisted(operand)
    case Bind(_, source, _, body) => CallsAllowlisted(source) && CallsAllowlisted(body)
    case Try(_, body, handler) => CallsAllowlisted(body) && (handler.Some? ==> CallsAllowlisted(handler.value))
    case ObjectConstruction(_, values) => forall k :: 0 <= k < |values| ==> CallsAllowlisted(values[k])
    case ArrayConstruction(_, element) => element.Some? ==> CallsAllowlisted(element.value)
    case _ => true
  }

  predicate SuffixAllowlisted(suffix: Suffix) {
    suffix.Index? && suffix.key.Some? ==> CallsAllowlisted(suffix.key.value)
  }

  lemma {:induction false} DerivedAllowlisted(s: Symbol, text: string, tokens: seq<Token>, i: nat, j: nat, n: Node, open: bool)
    requires i <= j < |tokens| && Derives(s, text, tokens, i, j, n, open)
    ensures CallsAllowlisted(n)
    decreases n, j - i, Rank(s), 0
  {
    if s.Comparison? && open && DerivesAny(Next(s), text, tokens, i, j, n) {
      AnyAllowlisted(Next(s), text, tokens, i, j, n);
    } else if !s.Comparison? && !s.Postfix? && Derives(Next(s), text, tokens, i, j, n, open) {
      DerivedAllowlisted(Next(s), text, tokens, i, j, n, open);
    } else if k :| i < k < j && n.Binary? && DerivesSplit(s, text, tokens, i, k, j, n, open) {
      AnyAllowlisted(if s.Chain? then s else Next(s), text, tokens, i, k, n.left);
      DerivedAllowlisted(Right(s), text, tokens, k + 1, j, n.right, open);
    } else if s.Unary? && n.Negate? {
      DerivedAllowlisted(Unary, text, tokens, i + 1, j, n.operand, open);
    } else if s.Unary? {
      TryAllowlisted(text, tokens, i + 1, j, n, open);
    } else if !open && DerivesTerm(text, tokens, i, j, n) {
      TermAllowlisted(text, tokens, i, j, n);
    } else {
      var k :| i < k < j - 3 && DerivesBind(text, tokens, i, k, j, n, open);
      TermAllowlisted(text, tokens, i, k, n.source);
      DerivedAllowlisted(Pipe, text, tokens, k + 3, j, n.body, open);
    }
  }

  lemma {:induction false} AnyAllowlisted(s: Symbol, text: string, tokens: seq<Token>, i: nat, j: nat, n: Node)
    requires i <= j < |tokens| && DerivesAny(s, text, tokens, i, j, n)
    ensures CallsAllowlisted(n)
    decreases n, j - i, Rank(s), 1
  {
    DerivedAllowlisted(s, text, tokens, i, j, n, Derives(s, text, tokens, i, j, n, true));
  }

  lemma {:induction false} TryAllowlisted(text: string, tokens: seq<Token>, i: nat, j: nat, n: Node, open: bool)
    requires i <= j < |tokens| && n.Try? && DerivesTry(text, tokens, i, j, n, open)
    ensures CallsAllowlisted(n)
    decreases n, j - i, 0, 0
  {
    if n.handler.None? {
      DerivedAllowlisted(Unary, text, tokens, i, j, n.body, open);
    } else {
      var k :| i < k < j && DerivesAny(Unary, text, tokens, i, k, n.body) && Derives(Unary, text, tokens, k + 1, j, n.handler.value, open);
      AnyAllowlisted(Unary, text, tokens, i, k, n.body);
      DerivedAllowlisted(Unary, text, tokens, k + 1, j, n.handler.value, open);
    }
  }

  lemma {:induction false} TermAllowlisted(text: string, tokens: seq<Token>, i: nat, j: nat, n: Node)
    requires i <= j < |tokens| && DerivesTerm(text, tokens, i, j, n)
    ensures CallsAllowlisted(n)
    decreases n, j - i, 10, 0
  {
    if i < j && DerivesPrimary(text, tokens, i, j, n) {
      PrimaryAllowlisted(text, tokens, i, j, n);
    } else {
      var k :| i <= k < j && DerivesPrimary(text, tokens, i, k, n.source) && DerivesSuffixes(text, tokens, k, j, n.suffixes);
      PrimaryAllowlisted(text, tokens, i, k, n.source);
      SuffixesAllowlisted(text, tokens, k, j, n.suffixes);
    }
  }

  lemma {:induction false} SuffixesAllowlisted(text: string, tokens: seq<Token>, i: nat, j: nat, suffixes: seq<Suffix>)
    requires i <= j < |tokens| && DerivesSuffixes(text, tokens, i, j, suffixes)
    ensures forall k :: 0 <= k < |suffixes| ==> SuffixAllowlisted(suffixes[k])
    decreases suffixes, j - i, 1, 0
  {
    if suffixes != [] {
      var k :| i < k <= j && DerivesSuffix(text, tokens, i, k, suffixes[0]) && DerivesSuffixes(text, tokens, k, j, suffixes[1..]);
      KeyAllowlisted(text, tokens, i, k, suffixes[0]);
      SuffixesAllowlisted(text, tokens, k, j, suffixes[1..]);
    }
  }

  lemma {:induction false} KeyAllowlisted(text: string, tokens: seq<Token>, i: nat, j: nat, suffix: Suffix)
    requires i < j < |tokens| && DerivesSuffix(text, tokens, i, j, suffix)
    ensures SuffixAllowlisted(suffix)
    decreases suffix, j - i, 0, 0
  {
    if suffix.Index? && suffix.key.Some? {
      AnyAllowlisted(Pipe, text, tokens, i + 1, j - 1, suffix.key.value);
    }
  }

  lemma {:induction false} PrimaryAllowlisted(text: string, tokens: seq<Token>, i: nat, j: nat, n: Node)
    requires i <= j < |tokens| && DerivesPrimary(text, tokens, i, j, n)
    ensures CallsAllowlisted(n)
    decreases n, j - i, 9, 0
  {
    var t := tokens[i];
    if t.kind == STRING {
      HolesAllowlisted(text, t.holes, n.interpolations);
    } else if t.kind == IDENT {
      if !KeywordLiteral(t.text) && Op(tokens, i + 1, "(") {
        ArgumentsAllowlisted(text, tokens, i + 2, j - 1, n.arguments);
      }
    } else if t.kind == OPERATOR {
      if t.text == "(" {
        AnyAllowlisted(Pipe, text, tokens, i + 1, j - 1, n);
      } else if t.text == "[" && n.element.Some? {
        AnyAllowlisted(Pipe, text, tokens, i + 1, j - 1, n.element.value);
      } else if t.text == "{" && n.values != [] {
        EntriesAllowlisted(text, tokens, i + 1, j - 1, n.values);
      }
    }
  }

  lemma {:induction false} ArgumentsAllowlisted(text: string, tokens: seq<Token>, i: nat, j: nat, arguments: seq<Node>)
    requires i <= j < |tokens| && DerivesArguments(text, tokens, i, j, arguments)
    ensures forall k :: 0 <= k < |arguments| ==> CallsAllowlisted(arguments[k])
    decreases arguments, j - i, 0, 0
  {
    if |arguments| == 1 {
      AnyAllowlisted(Pipe, text, tokens, i, j, arguments[0]);
    } else {
      var k := ArgumentsParts(text, tokens, i, j, arguments);
      AnyAllowlisted(Pipe, text, tokens, i, k, arguments[0]);
      ArgumentsAllowlisted(text, tokens, k + 1, j, arguments[1..]);
    }
  }

  lemma {:induction false} EntriesAllowlisted(text: string, tokens: seq<Token>, i: nat, j: nat, values: seq<Node>)
    requires i <= j < |tokens| && DerivesEntries(text, tokens, i, j, values)
    ensures forall k :: 0 <= k < |values| ==> CallsAllowlisted(values[k])
    decreases values, j - i, 0, 0
  {
    if |values| == 1 {
      AnyAllowlisted(Alternative, text, tokens, i + 2, j, values[0]);
    } else {
      var k := EntriesParts(text, tokens, i, j, values);
      AnyAllowlisted(Alternative, text, tokens, i + 2, k, values[0]);
      EntriesAllowlisted(text, tokens, k + 1, j, values[1..]);
    }
  }

  lemma {:induction false} HolesAllowlisted(text: string, holes: seq<Hole>, parts: seq<Node>)
    requires DerivesHoles(text, holes, parts)
    ensures forall k :: 0 <= k < |parts| ==> CallsAllowlisted(parts[k])
    decreases parts, 0, 0, 0
  {
    if parts != [] {
      var tokens := HoleTokens(text, holes[0]);
      assert DerivesHole(text, holes[0], parts[0]);
      AnyAllowlisted(Pipe, text, tokens, 0, |tokens| - 1, parts[0]);
      HolesAllowlisted(text, holes[1..], parts[1..]);
    }
  }

  lemma MeaningAllowlisted(text: string, n: Node)
    requires Means(text, n)
    ensures CallsAllowlisted(n)
  {
    var tokens := LexFrom(text, 0, |text|).value.tokens;
    AnyAllowlisted(Pipe, text, tokens, 0, |tokens| - 1, n);
  }
}
