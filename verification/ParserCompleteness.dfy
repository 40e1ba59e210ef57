/** Every derivation is found: the parser returns the one tree its tokens stand for. */
module ParserCompleteness {
  import opened Wrappers
  import opened ConditionAst
  import opened Lexical
  import opened ScannerAgreement
  import opened Grammar
  import opened Derivation

  /** Tokens an expression can start with. */
  predicate Starts(t: Token) {
    match t.kind
    case FIELD | STRING | NUMBER | VARIABLE | IDENT => true
    case OPERATOR => t.text == "." || t.text == "(" || t.text == "[" || t.text == "{" || t.text == "-"
    case _ => false
  }

  lemma {:induction false} PrimaryStarts(text: string, tokens: seq<Token>, i: nat, j: nat, n: Node)
    requires i <= j < |tokens| && DerivesPrimary(text, tokens, i, j, n)
    ensures Starts(tokens[i]) && !Op(tokens, i, "-") && !Keyword(tokens, i, "try")
  {
  }

  lemma {:induction false} TermStarts(text: string, tokens: seq<Token>, i: nat, j: nat, n: Node)
    requires i <= j < |tokens| && DerivesTerm(text, tokens, i, j, n)
    ensures Starts(tokens[i]) && !Op(tokens, i, "-") && !Keyword(tokens, i, "try")
  {
    if i < j && DerivesPrimary(text, tokens, i, j, n) {
      PrimaryStarts(text, tokens, i, j, n);
    } else {
      var k :| i <= k < j && DerivesPrimary(text, tokens, i, k, n.source) && DerivesSuffixes(text, tokens, k, j, n.suffixes);
      PrimaryStarts(text, tokens, i, k, n.source);
    }
  }

  lemma {:induction false} DerivationStarts(s: Symbol, text: string, tokens: seq<Token>, i: nat, j: nat, n: Node, open: bool)
    requires i <= j < |tokens| && Derives(s, text, tokens, i, j, n, open)
    ensures Starts(tokens[i])
    decreases n, j - i, Rank(s)
  {
    if s.Comparison? && open && DerivesAny(Next(s), text, tokens, i, j, n) {
      DerivationStarts(Next(s), text, tokens, i, j, n, Derives(Next(s), text, tokens, i, j, n, true));
    } else if !s.Comparison? && !s.Postfix? && Derives(Next(s), text, tokens, i, j, n, open) {
      DerivationStarts(Next(s), text, tokens, i, j, n, open);
    } else if k :| i < k < j && n.Binary? && DerivesSplit(s, text, tokens, i, k, j, n, open) {
      var left := if s.Chain? then s else Next(s);
      assert DerivesAny(left, text, tokens, i, k, n.left);
      DerivationStarts(left, text, tokens, i, k, n.left, Derives(left, text, tokens, i, k, n.left, true));
    } else if s.Postfix? {
      if !open && DerivesTerm(text, tokens, i, j, n) {
        TermStarts(text, tokens, i, j, n);
      } else {
        var k :| i < k < j - 3 && DerivesBind(text, tokens, i, k, j, n, open);
        TermStarts(text, tokens, i, k, n.source);
      }
    }
  }

  lemma {:induction false} AnyStarts(s: Symbol, text: string, tokens: seq<Token>, i: nat, j: nat, n: Node)
    requires i <= j < |tokens| && DerivesAny(s, text, tokens, i, j, n)
    ensures Starts(tokens[i])
  {
    DerivationStarts(s, text, tokens, i, j, n, Derives(s, text, tokens, i, j, n, true));
  }

  /** Below the comparisons only a binding can be open, and its rule already looked at what follows. */
  lemma {:induction false} OpenGuarded(s: Symbol, text: string, tokens: seq<Token>, i: nat, j: nat, n: Node)
    requires i <= j < |tokens| && Derives(s, text, tokens, i, j, n, true) && Rank(s) < Rank(Comparison)
    ensures !ComparisonToken(tokens[j])
    decreases n, j - i, Rank(s)
  {
    if !s.Postfix? && Derives(Next(s), text, tokens, i, j, n, true) {
      OpenGuarded(Next(s), text, tokens, i, j, n);
    } else if k :| i < k < j && n.Binary? && DerivesSplit(s, text, tokens, i, k, j, n, true) {
      assert Derives(Right(s), text, tokens, k + 1, j, n.right, true);
      OpenGuarded(Right(s), text, tokens, k + 1, j, n.right);
    } else if s.Unary? && n.Negate? {
      OpenGuarded(Unary, text, tokens, i + 1, j, n.operand);
    } else if s.Unary? && n.Try? {
      assert DerivesTry(text, tokens, i + 1, j, n, true);
      if n.handler.None? {
        OpenGuarded(Unary, text, tokens, i + 1, j, n.body);
      } else {
        var k :| i + 1 < k < j && Derives(Unary, text, tokens, k + 1, j, n.handler.value, true);
        OpenGuarded(Unary, text, tokens, k + 1, j, n.handler.value);
      }
    }
  }

  // ---------- completeness ----------

  predicate Found(p: Option<Parsed>, n: Node, j: nat) {
    p.Some? && p.value.node == n && p.value.next == j
  }

  predicate FoundList<T(==)>(p: Option<Listed<T>>, items: seq<T>, j: nat) {
    p.Some? && p.value.items == items && p.value.next == j
  }

  lemma {:induction false} ParseComplete(s: Symbol, text: string, tokens: seq<Token>, i: nat, j: nat, n: Node, open: bool)
    requires WellLexed(text, tokens) && i <= j < |tokens|
    requires Derives(s, text, tokens, i, j, n, open) && !Extends(s, open, tokens[j])
    ensures Found(Parse(s, text, tokens, i), n, j)
    decreases n, j - i, Rank(s), 4
  {
    match s
    case Chain(level) =>
      var acc := ChainComplete(level, text, tokens, i, j, n, open);
    case Unary => UnaryComplete(text, tokens, i, j, n, open);
    case Postfix => PostfixComplete(text, tokens, i, j, n, open);
    case _ => OnceComplete(s, text, tokens, i, j, n, open);
  }

  lemma {:induction false} AnyComplete(s: Symbol, text: string, tokens: seq<Token>, i: nat, j: nat, n: Node)
    requires WellLexed(text, tokens) && i <= j < |tokens| && DerivesAny(s, text, tokens, i, j, n)
    requires !Continues(s, tokens[j]) && !(Derives(s, text, tokens, i, j, n, true) && ComparisonToken(tokens[j]))
    ensures Found(Parse(s, text, tokens, i), n, j)
    decreases n, j - i, Rank(s), 5
  {
    ParseComplete(s, text, tokens, i, j, n, Derives(s, text, tokens, i, j, n, true));
  }

  /** The two sides of a derived infix expression. */
  lemma {:induction false} SplitParts(s: Symbol, text: string, tokens: seq<Token>, i: nat, j: nat, n: Node, open: bool)
    returns (k: nat)
    requires i <= j < |tokens| && Derives(s, text, tokens, i, j, n, open)
    requires s.Pipe? || s.Alternative? || s.Chain? || s.Comparison?
    requires !(s.Comparison? && open && DerivesAny(Next(s), text, tokens, i, j, n))
    requires !(!s.Comparison? && Derives(Next(s), text, tokens, i, j, n, open))
    ensures i < k < j && n.Binary? && SplitToken(s, tokens[k])
    ensures n == Binary(tokens[k].position, tokens[k].text, n.left, n.right)
    ensures DerivesAny(if s.Chain? then s else Next(s), text, tokens, i, k, n.left)
    ensures Derives(Right(s), text, tokens, k + 1, j, n.right, open)
  {
    k :| i < k < j && n.Binary? && DerivesSplit(s, text, tokens, i, k, j, n, open);
  }

  lemma OnceStep(s: Symbol, text: string, tokens: seq<Token>, i: nat, k: nat, j: nat, left: Node, right: Node)
    requires WellLexed(text, tokens) && i < k < j < |tokens| && (s.Pipe? || s.Alternative? || s.Comparison?)
    requires Found(Parse(Next(s), text, tokens, i), left, k) && SplitToken(s, tokens[k])
    requires Found(Parse(Right(s), text, tokens, k + 1), right, j)
    ensures Found(ParseOnce(s, text, tokens, i), Binary(tokens[k].position, tokens[k].text, left, right), j)
  {
  }

  lemma {:induction false} OnceComplete(s: Symbol, text: string, tokens: seq<Token>, i: nat, j: nat, n: Node, open: bool)
    requires WellLexed(text, tokens) && i <= j < |tokens| && (s.Pipe? || s.Alternative? || s.Comparison?)
    requires Derives(s, text, tokens, i, j, n, open) && !Extends(s, open, tokens[j])
    ensures Found(ParseOnce(s, text, tokens, i), n, j)
    decreases n, j - i, Rank(s), 3
  {
    if s.Comparison? && open && DerivesAny(Next(s), text, tokens, i, j, n) {
      AnyComplete(Next(s), text, tokens, i, j, n);
    } else if !s.Comparison? && Derives(Next(s), text, tokens, i, j, n, open) {
      ParseComplete(Next(s), text, tokens, i, j, n, open);
    } else {
      var k := SplitParts(s, text, tokens, i, j, n, open);
      SplitGuarded(s, text, tokens, i, k, n.left);
      RightExtends(s, open, tokens[j]);
      AnyComplete(Next(s), text, tokens, i, k, n.left);
      ParseComplete(Right(s), text, tokens, k + 1, j, n.right, open);
      OnceStep(s, text, tokens, i, k, j, n.left, n.right);
    }
  }

  /** A splitting token extends no left operand. */
  lemma {:induction false} SplitGuarded(s: Symbol, text: string, tokens: seq<Token>, i: nat, k: nat, left: Node)
    requires i < k < |tokens| && (s.Pipe? || s.Alternative? || s.Comparison?) && SplitToken(s, tokens[k])
    requires DerivesAny(Next(s), text, tokens, i, k, left)
    ensures !Continues(Next(s), tokens[k])
    ensures !(Derives(Next(s), text, tokens, i, k, left, true) && ComparisonToken(tokens[k]))
  {
    SplitTokensEnd(s, tokens[k]);
    if Derives(Next(s), text, tokens, i, k, left, true) && ComparisonToken(tokens[k]) {
      OpenGuarded(Next(s), text, tokens, i, k, left);
    }
  }

  /** What does not extend the whole does not extend its right operand. */
  lemma RightExtends(s: Symbol, open: bool, t: Token)
    requires (s.Pipe? || s.Alternative? || s.Comparison?) && !Extends(s, open, t)
    ensures !Extends(Right(s), open, t)
  {
  }

  /** A derived prefix of a chain is what the loop holds when it reaches the prefix's end. */
  lemma {:induction false} ChainComplete(level: Level, text: string, tokens: seq<Token>, i: nat, j: nat, n: Node, open: bool)
    returns (acc: Parsed)
    requires WellLexed(text, tokens) && i <= j < |tokens|
    requires Derives(Chain(level), text, tokens, i, j, n, open) && !Extends(Operand(level), open, tokens[j])
    ensures acc.node == n && acc.next == j && Parse(Chain(level), text, tokens, i) == ParseChain(level, text, tokens, acc)
    decreases n, j - i, Rank(Chain(level)), 3
  {
    if Derives(Operand(level), text, tokens, i, j, n, open) {
      ParseComplete(Operand(level), text, tokens, i, j, n, open);
      acc := Parse(Operand(level), text, tokens, i).value;
    } else {
      var k := SplitParts(Chain(level), text, tokens, i, j, n, open);
      acc := LongerChainComplete(level, text, tokens, i, k, j, n, open);
    }
  }

  lemma {:induction false} LongerChainComplete(level: Level, text: string, tokens: seq<Token>, i: nat, k: nat, j: nat, n: Node,
                                               open: bool)
    returns (acc: Parsed)
    requires WellLexed(text, tokens) && i <= j < |tokens| && !Extends(Operand(level), open, tokens[j])
    requires i < k < j && n.Binary? && DerivesSplit(Chain(level), text, tokens, i, k, j, n, open)
    ensures acc.node == n && acc.next == j && Parse(Chain(level), text, tokens, i) == ParseChain(level, text, tokens, acc)
    decreases n, j - i, Rank(Chain(level)), 2
  {
    var leftOpen := Derives(Chain(level), text, tokens, i, k, n.left, true);
    ChainTokensEnd(level, leftOpen, tokens[k]);
    var left := ChainComplete(level, text, tokens, i, k, n.left, leftOpen);
    ParseComplete(Operand(level), text, tokens, k + 1, j, n.right, open);
    acc := Infix(tokens[k], left, Parse(Operand(level), text, tokens, k + 1).value);
    ChainContinues(level, text, tokens, left);
  }

  /** One turn of the loop. */
  lemma ChainContinues(level: Level, text: string, tokens: seq<Token>, left: Parsed)
    requires WellLexed(text, tokens) && left.next < |tokens| && ChainToken(level, tokens[left.next])
    requires left.next + 1 < |tokens| && Parse(Operand(level), text, tokens, left.next + 1).Some?
    ensures ParseChain(level, text, tokens, left) ==
              ParseChain(level, text, tokens,
                         Infix(tokens[left.next], left, Parse(Operand(level), text, tokens, left.next + 1).value))
  {
  }

  lemma SplitTokensEnd(s: Symbol, t: Token)
    requires (s.Pipe? || s.Alternative? || s.Comparison?) && SplitToken(s, t)
    ensures !Continues(Next(s), t) && (s.Comparison? || !ComparisonToken(t))
  {
    assert !Continues(Chain(MULTIPLICATIVE), t);
    assert s.Comparison? || (!Continues(Comparison, t) && !Continues(Chain(OR), t));
  }

  lemma ChainTokensEnd(level: Level, open: bool, t: Token)
    requires ChainToken(level, t)
    ensures !Extends(Operand(level), open, t)
  {
    match level
    case COMMA => assert !Continues(Chain(MULTIPLICATIVE), t) && !Continues(Comparison, t) && !Continues(Chain(OR), t);
    case OR => assert !Continues(Chain(MULTIPLICATIVE), t) && !Continues(Comparison, t);
    case AND => assert !Continues(Chain(MULTIPLICATIVE), t);
    case ADDITIVE =>
    case MULTIPLICATIVE =>
  }

  lemma {:induction false} UnaryComplete(text: string, tokens: seq<Token>, i: nat, j: nat, n: Node, open: bool)
    requires WellLexed(text, tokens) && i <= j < |tokens|
    requires Derives(Unary, text, tokens, i, j, n, open) && !Extends(Unary, open, tokens[j])
    ensures Found(Parse(Unary, text, tokens, i), n, j)
    decreases n, j - i, 12, 3
  {
    if Derives(Postfix, text, tokens, i, j, n, open) {
      PostfixStarts(text, tokens, i, j, n, open);
      ParseComplete(Postfix, text, tokens, i, j, n, open);
    } else if n.Negate? {
      ParseComplete(Unary, text, tokens, i + 1, j, n.operand, open);
    } else {
      assert DerivesTry(text, tokens, i + 1, j, n, open);
      if n.handler.None? {
        ParseComplete(Unary, text, tokens, i + 1, j, n.body, open);
      } else {
        var k :| i + 1 < k < j && DerivesAny(Unary, text, tokens, i + 1, k, n.body) && Keyword(tokens, k, "catch")
                 && Derives(Unary, text, tokens, k + 1, j, n.handler.value, open);
        AnyComplete(Unary, text, tokens, i + 1, k, n.body);
        ParseComplete(Unary, text, tokens, k + 1, j, n.handler.value, open);
      }
    }
  }

  lemma {:induction false} PostfixStarts(text: string, tokens: seq<Token>, i: nat, j: nat, n: Node, open: bool)
    requires i <= j < |tokens| && Derives(Postfix, text, tokens, i, j, n, open)
    ensures !Op(tokens, i, "-") && !Keyword(tokens, i, "try")
  {
    if !open && DerivesTerm(text, tokens, i, j, n) {
      TermStarts(text, tokens, i, j, n);
    } else {
      var k :| i < k < j - 3 && DerivesBind(text, tokens, i, k, j, n, open);
      TermStarts(text, tokens, i, k, n.source);
    }
  }

  lemma {:induction false} PostfixComplete(text: string, tokens: seq<Token>, i: nat, j: nat, n: Node, open: bool)
    requires WellLexed(text, tokens) && i <= j < |tokens|
    requires Derives(Postfix, text, tokens, i, j, n, open) && !Extends(Postfix, open, tokens[j])
    ensures Found(Parse(Postfix, text, tokens, i), n, j)
    decreases n, j - i, 11, 3
  {
    if !open && DerivesTerm(text, tokens, i, j, n) {
      TermComplete(text, tokens, i, j, n);
    } else {
      var k :| i < k < j - 3 && DerivesBind(text, tokens, i, k, j, n, open);
      TermComplete(text, tokens, i, k, n.source);
      ParseComplete(Pipe, text, tokens, k + 3, j, n.body, open);
    }
  }

  lemma {:induction false} TermComplete(text: string, tokens: seq<Token>, i: nat, j: nat, n: Node)
    requires WellLexed(text, tokens) && i <= j < |tokens|
    requires DerivesTerm(text, tokens, i, j, n) && !SuffixToken(tokens[j])
    ensures Found(ParseTerm(text, tokens, i), n, j)
    decreases n, j - i, 10, 0
  {
    if i < j && DerivesPrimary(text, tokens, i, j, n) {
      PrimaryComplete(text, tokens, i, j, n);
    } else {
      var k :| i <= k < j && DerivesPrimary(text, tokens, i, k, n.source) && DerivesSuffixes(text, tokens, k, j, n.suffixes);
      PrimaryComplete(text, tokens, i, k, n.source);
      SuffixesComplete(text, tokens, k, j, n.suffixes);
    }
  }

  lemma {:induction false} SuffixesComplete(text: string, tokens: seq<Token>, i: nat, j: nat, suffixes: seq<Suffix>)
    requires WellLexed(text, tokens) && i <= j < |tokens|
    requires DerivesSuffixes(text, tokens, i, j, suffixes) && !SuffixToken(tokens[j])
    ensures FoundList(ParseSuffixes(text, tokens, i), suffixes, j)
    decreases suffixes, j - i, 0, 1
  {
    if suffixes != [] {
      var k :| i < k <= j && DerivesSuffix(text, tokens, i, k, suffixes[0]) && DerivesSuffixes(text, tokens, k, j, suffixes[1..]);
      SuffixesComplete(text, tokens, k, j, suffixes[1..]);
      SuffixComplete(text, tokens, i, k, suffixes[0]);
      assert [suffixes[0]] + suffixes[1..] == suffixes;
    }
  }

  lemma {:induction false} SuffixComplete(text: string, tokens: seq<Token>, i: nat, k: nat, suffix: Suffix)
    requires WellLexed(text, tokens) && i < k < |tokens| && DerivesSuffix(text, tokens, i, k, suffix)
    ensures SuffixToken(tokens[i]) && ParseSuffix(text, tokens, i).Some?
    ensures var p := ParseSuffix(text, tokens, i).value; p.suffix == suffix && p.next == k
    decreases suffix, k - i, 0, 0
  {
    if suffix.Index? && suffix.key.Some? {
      AnyStarts(Pipe, text, tokens, i + 1, k - 1, suffix.key.value);
      AnyComplete(Pipe, text, tokens, i + 1, k - 1, suffix.key.value);
    }
  }

  lemma {:induction false} PrimaryComplete(text: string, tokens: seq<Token>, i: nat, j: nat, n: Node)
    requires WellLexed(text, tokens) && i <= j < |tokens| && DerivesPrimary(text, tokens, i, j, n)
    ensures Found(ParsePrimary(text, tokens, i), n, j)
    decreases n, j - i, 9, 1
  {
    var t := tokens[i];
    match t.kind
    case STRING => HolesComplete(text, tokens, i, t.holes, n.interpolations);
    case IDENT =>
      if !KeywordLiteral(t.text) && Op(tokens, i + 1, "(") {
        ArgumentsComplete(text, tokens, i + 2, j - 1, n.arguments);
      }
    case OPERATOR => OperatorTermComplete(text, tokens, i, j, n);
    case _ =>
  }

  lemma {:induction false} OperatorTermComplete(text: string, tokens: seq<Token>, i: nat, j: nat, n: Node)
    requires WellLexed(text, tokens) && i <= j < |tokens| && DerivesPrimary(text, tokens, i, j, n) && tokens[i].kind == OPERATOR
    ensures Found(ParsePrimary(text, tokens, i), n, j)
    decreases n, j - i, 9, 0
  {
    var t := tokens[i];
    if t.text == "(" {
      AnyComplete(Pipe, text, tokens, i + 1, j - 1, n);
    } else if t.text == "[" {
      ArrayComplete(text, tokens, i, j, n);
    } else if t.text == "{" {
      ObjectComplete(text, tokens, i, j, n);
    }
  }

  lemma {:induction false} ArrayComplete(text: string, tokens: seq<Token>, i: nat, j: nat, n: Node)
    requires WellLexed(text, tokens) && i <= j < |tokens| && DerivesPrimary(text, tokens, i, j, n) && Op(tokens, i, "[")
    ensures Found(ParsePrimary(text, tokens, i), n, j)
    decreases n, 0, 0, 0
  {
    if n.element.Some? {
      AnyStarts(Pipe, text, tokens, i + 1, j - 1, n.element.value);
      AnyComplete(Pipe, text, tokens, i + 1, j - 1, n.element.value);
    }
  }

  lemma {:induction false} ObjectComplete(text: string, tokens: seq<Token>, i: nat, j: nat, n: Node)
    requires WellLexed(text, tokens) && i <= j < |tokens| && DerivesPrimary(text, tokens, i, j, n) && Op(tokens, i, "{")
    ensures Found(ParsePrimary(text, tokens, i), n, j)
    decreases n, 0, 0, 0
  {
    if n.values != [] {
      EntriesComplete(text, tokens, i + 1, j - 1, n.values);
    }
  }

  lemma ArgumentsStep(text: string, tokens: seq<Token>, i: nat, k: nat, j: nat, arguments: seq<Node>)
    requires WellLexed(text, tokens) && i < k < j < |tokens| && arguments != []
    requires Found(Parse(Pipe, text, tokens, i), arguments[0], k) && Op(tokens, k, ";")
    requires FoundList(ParseArguments(text, tokens, k + 1), arguments[1..], j)
    ensures FoundList(ParseArguments(text, tokens, i), arguments, j)
  {
    assert [arguments[0]] + arguments[1..] == arguments;
  }

  lemma EntriesStep(text: string, tokens: seq<Token>, i: nat, k: nat, j: nat, values: seq<Node>)
    requires WellLexed(text, tokens) && i + 2 < k < j < |tokens| && values != []
    requires StaticKey(tokens[i]) && Op(tokens, i + 1, ":")
    requires Found(Parse(Alternative, text, tokens, i + 2), values[0], k) && Op(tokens, k, ",")
    requires FoundList(ParseEntries(text, tokens, k + 1), values[1..], j)
    ensures FoundList(ParseEntries(text, tokens, i), values, j)
  {
    assert [values[0]] + values[1..] == values;
  }

  lemma {:induction false} ArgumentsParts(text: string, tokens: seq<Token>, i: nat, j: nat, arguments: seq<Node>) returns (k: nat)
    requires i <= j < |tokens| && DerivesArguments(text, tokens, i, j, arguments) && |arguments| > 1
    ensures i < k < j && Op(tokens, k, ";") && DerivesAny(Pipe, text, tokens, i, k, arguments[0])
    ensures DerivesArguments(text, tokens, k + 1, j, arguments[1..])
  {
    k :| i < k < j && DerivesAny(Pipe, text, tokens, i, k, arguments[0])
         && Op(tokens, k, ";") && DerivesArguments(text, tokens, k + 1, j, arguments[1..]);
  }

  lemma {:induction false} ArgumentsComplete(text: string, tokens: seq<Token>, i: nat, j: nat, arguments: seq<Node>)
    requires WellLexed(text, tokens) && i <= j < |tokens|
    requires DerivesArguments(text, tokens, i, j, arguments) && Op(tokens, j, ")")
    ensures FoundList(ParseArguments(text, tokens, i), arguments, j)
    decreases arguments, j - i, 0, 0
  {
    if |arguments| == 1 {
      AnyComplete(Pipe, text, tokens, i, j, arguments[0]);
    } else {
      var k := ArgumentsParts(text, tokens, i, j, arguments);
      AnyComplete(Pipe, text, tokens, i, k, arguments[0]);
      ArgumentsComplete(text, tokens, k + 1, j, arguments[1..]);
      ArgumentsStep(text, tokens, i, k, j, arguments);
    }
  }

  lemma {:induction false} EntriesParts(text: string, tokens: seq<Token>, i: nat, j: nat, values: seq<Node>) returns (k: nat)
    requires i <= j < |tokens| && DerivesEntries(text, tokens, i, j, values) && |values| > 1
    ensures i + 2 < k < j && StaticKey(tokens[i]) && Op(tokens, i + 1, ":") && Op(tokens, k, ",")
    ensures DerivesAny(Alternative, text, tokens, i + 2, k, values[0])
    ensures DerivesEntries(text, tokens, k + 1, j, values[1..])
  {
    k :| i + 2 < k < j && DerivesAny(Alternative, text, tokens, i + 2, k, values[0])
         && Op(tokens, k, ",") && DerivesEntries(text, tokens, k + 1, j, values[1..]);
  }

  lemma EntriesHead(text: string, tokens: seq<Token>, i: nat, j: nat, values: seq<Node>)
    requires i <= j < |tokens| && DerivesEntries(text, tokens, i, j, values) && |values| == 1
    ensures i + 2 < j && StaticKey(tokens[i]) && Op(tokens, i + 1, ":")
    ensures DerivesAny(Alternative, text, tokens, i + 2, j, values[0])
  {
  }

  lemma EntriesLast(text: string, tokens: seq<Token>, i: nat, j: nat, value: Node)
    requires WellLexed(text, tokens) && i + 2 < j < |tokens| && StaticKey(tokens[i]) && Op(tokens, i + 1, ":")
    requires Found(Parse(Alternative, text, tokens, i + 2), value, j) && Op(tokens, j, "}")
    ensures FoundList(ParseEntries(text, tokens, i), [value], j)
  {
  }

  lemma EntryEnds(t: Token)
    requires t.kind == OPERATOR && (t.text == "," || t.text == "}")
    ensures !Continues(Alternative, t) && !ComparisonToken(t)
  {
    assert !Continues(Chain(MULTIPLICATIVE), t);
    assert !Continues(Comparison, t);
  }

  lemma {:induction false} EntriesComplete(text: string, tokens: seq<Token>, i: nat, j: nat, values: seq<Node>)
    requires WellLexed(text, tokens) && i <= j < |tokens|
    requires DerivesEntries(text, tokens, i, j, values) && Op(tokens, j, "}")
    ensures FoundList(ParseEntries(text, tokens, i), values, j)
    decreases values, j - i, 0, 0
  {
    if |values| == 1 {
      EntriesHead(text, tokens, i, j, values);
      EntryEnds(tokens[j]);
      AnyComplete(Alternative, text, tokens, i + 2, j, values[0]);
      EntriesLast(text, tokens, i, j, values[0]);
      assert values == [values[0]];
    } else {
      var k := EntriesParts(text, tokens, i, j, values);
      EntryEnds(tokens[k]);
      AnyComplete(Alternative, text, tokens, i + 2, k, values[0]);
      EntriesComplete(text, tokens, k + 1, j, values[1..]);
      EntriesStep(text, tokens, i, k, j, values);
    }
  }

  lemma {:induction false} HolesComplete(text: string, tokens: seq<Token>, i: nat, holes: seq<Hole>, parts: seq<Node>)
    requires WellLexed(text, tokens) && i < |tokens| - 1
    requires forall h :: h in holes ==> h in tokens[i].holes
    requires DerivesHoles(text, holes, parts)
    ensures FoundList(ParseHoles(text, tokens, i, holes), parts, i)
    decreases parts, 0, 0, 0
  {
    if holes != [] {
      assert holes[0] in tokens[i].holes;
      InterpolationComplete(text, holes[0], parts[0]);
      HolesComplete(text, tokens, i, holes[1..], parts[1..]);
    }
  }

  lemma {:induction false} InterpolationComplete(text: string, h: Hole, part: Node)
    requires ScannedHole(text, h) && DerivesHole(text, h, part)
    ensures ParseInterpolation(text, h).Some? && ParseInterpolation(text, h).value.node == part
    decreases part, |HoleTokens(text, h)|, 21, 6
  {
    HoleWellLexed(text, h);
    var tokens := HoleTokens(text, h);
    EndContinuesNothing(Pipe, tokens[|tokens| - 1]);
    AnyComplete(Pipe, text, tokens, 0, |tokens| - 1, part);
  }
}
