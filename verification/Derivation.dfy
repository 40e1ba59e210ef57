/**
 The precedence grammar as a relation: which tree the tokens `i..j` stand for. The parser
 returns exactly the derivable tree, so the grammar is unambiguous and the tree's yield
 is exactly the tokens consumed.
 */
module Derivation {
  import opened Wrappers
  import opened ConditionAst
  import opened Lexical
  import opened ScannerAgreement
  import opened Grammar

  // ---------- what may not follow a construct, since it would be part of it ----------

  predicate Continues(s: Symbol, t: Token)
    decreases Rank(s)
  {
    if s.Postfix? then
      t.kind == FIELD || (t.kind == IDENT && t.text == "as") || (t.kind == OPERATOR && (t.text == "[" || t.text == "?"))
    else Continues(Next(s), t) || (!s.Comparison? && SplitToken(s, t))
  }

  /** Nothing goes on past the end. */
  lemma {:induction false} EndContinuesNothing(s: Symbol, t: Token)
    requires t.kind == END
    ensures !Continues(s, t) && !ComparisonToken(t)
    decreases Rank(s)
  {
    if !s.Postfix? {
      EndContinuesNothing(Next(s), t);
    }
  }

  /** Comparisons do not chain: one extends a construct only where its right edge is still `open` to it. */
  predicate Extends(s: Symbol, open: bool, t: Token) {
    Continues(s, t) || (open && ComparisonToken(t))
  }

  // ---------- the grammar ----------

  ghost predicate Derives(s: Symbol, text: string, tokens: seq<Token>, i: nat, j: nat, n: Node, open: bool)
    requires i <= j < |tokens|
    decreases n, j - i, Rank(s), 0
  {
    && i < j
    && (|| (s.Comparison? && open && DerivesAny(Next(s), text, tokens, i, j, n))
        || (!s.Comparison? && !s.Postfix? && Derives(Next(s), text, tokens, i, j, n, open))
        || (n.Binary? && exists k | i < k < j :: DerivesSplit(s, text, tokens, i, k, j, n, open))
        || (s.Unary? && n.Negate? && Op(tokens, i, "-") && n.position == tokens[i].position
            && Derives(Unary, text, tokens, i + 1, j, n.operand, open))
        || (s.Unary? && n.Try? && Keyword(tokens, i, "try") && n.position == tokens[i].position
            && DerivesTry(text, tokens, i + 1, j, n, open))
        || (s.Postfix? && !open && DerivesTerm(text, tokens, i, j, n))
        || (s.Postfix? && n.Bind? && exists k | i < k < j - 3 :: DerivesBind(text, tokens, i, k, j, n, open)))
  }

  ghost predicate DerivesAny(s: Symbol, text: string, tokens: seq<Token>, i: nat, j: nat, n: Node)
    requires i <= j < |tokens|
    decreases n, j - i, Rank(s), 1
  {
    Derives(s, text, tokens, i, j, n, true) || Derives(s, text, tokens, i, j, n, false)
  }

  /** `left operator right`, the operator being token `k`. */
  ghost predicate DerivesSplit(s: Symbol, text: string, tokens: seq<Token>, i: nat, k: nat, j: nat, n: Node, open: bool)
    requires i < k < j < |tokens| && n.Binary?
    decreases n, j - i, 0, 0
  {
    && SplitToken(s, tokens[k]) && n.position == tokens[k].position && n.operator == tokens[k].text
    && DerivesAny(if s.Chain? then s else Next(s), text, tokens, i, k, n.left)
    && Derives(Right(s), text, tokens, k + 1, j, n.right, open)
  }

  /** `source as $variable | body`: the body reaches as far as a pipe can. */
  ghost predicate DerivesBind(text: string, tokens: seq<Token>, i: nat, k: nat, j: nat, n: Node, open: bool)
    requires i < k < j - 3 && j < |tokens| && n.Bind?
    decreases n, j - i, 0, 0
  {
    && DerivesTerm(text, tokens, i, k, n.source)
    && Keyword(tokens, k, "as") && n.position == tokens[k].position
    && tokens[k + 1].kind == VARIABLE && tokens[k + 1].text == n.variable && Op(tokens, k + 2, "|")
    && Derives(Pipe, text, tokens, k + 3, j, n.body, open) && !Extends(Pipe, open, tokens[j])
  }

  /** A `catch` belongs to the nearest `try`. */
  ghost predicate DerivesTry(text: string, tokens: seq<Token>, i: nat, j: nat, n: Node, open: bool)
    requires i <= j < |tokens| && n.Try?
    decreases n, j - i, 0, 0
  {
    if n.handler.None? then Derives(Unary, text, tokens, i, j, n.body, open) && !Keyword(tokens, j, "catch")
    else exists k | i < k < j :: DerivesAny(Unary, text, tokens, i, k, n.body) && Keyword(tokens, k, "catch")
                                 && Derives(Unary, text, tokens, k + 1, j, n.handler.value, open)
  }

  ghost predicate DerivesTerm(text: string, tokens: seq<Token>, i: nat, j: nat, n: Node)
    requires i <= j < |tokens|
    decreases n, j - i, 10
  {
    || (i < j && DerivesPrimary(text, tokens, i, j, n))
    || (n.Projection? && n.suffixes != [] && n.position == tokens[i].position &&
        exists k | i <= k < j :: DerivesPrimary(text, tokens, i, k, n.source) && DerivesSuffixes(text, tokens, k, j, n.suffixes))
  }

  ghost predicate DerivesPrimary(text: string, tokens: seq<Token>, i: nat, j: nat, n: Node)
    requires i <= j < |tokens|
    decreases n, j - i, 9
  {
    var t := tokens[i];
    match t.kind
    case FIELD => j == i && n == Root(t.position)
    case STRING => j == i + 1 && n.String? && n.position == t.position && n.value == t.text && DerivesHoles(text, t.holes, n.interpolations)
    case NUMBER => j == i + 1 && n == Constant(t.position)
    case VARIABLE => j == i + 1 && n == Variable(t.position, t.text) && !NamedVariableRefusal(t.text)
    case IDENT =>
      if KeywordLiteral(t.text) then j == i + 1 && n == Constant(t.position)
      else i < j && n.Call? && n.position == t.position && n.name == t.text && Allowlisted(n.name, |n.arguments|) &&
           if Op(tokens, i + 1, "(") then i + 2 < j && Op(tokens, j - 1, ")") && DerivesArguments(text, tokens, i + 2, j - 1, n.arguments)
           else j == i + 1 && n.arguments == []
    case OPERATOR =>
      || (t.text == "." && j == i + 1 && n == Root(t.position))
      || (t.text == "(" && i + 1 < j && Op(tokens, j - 1, ")") && DerivesAny(Pipe, text, tokens, i + 1, j - 1, n))
      || (t.text == "[" && i + 1 < j && Op(tokens, j - 1, "]") && n.ArrayConstruction? && n.position == t.position &&
          if n.element.None? then j == i + 2 else DerivesAny(Pipe, text, tokens, i + 1, j - 1, n.element.value))
      || (t.text == "{" && i + 1 < j && Op(tokens, j - 1, "}") && n.ObjectConstruction? && n.position == t.position &&
          if n.values == [] then j == i + 2 else DerivesEntries(text, tokens, i + 1, j - 1, n.values))
    case _ => false
  }

  ghost predicate DerivesSuffixes(text: string, tokens: seq<Token>, i: nat, j: nat, suffixes: seq<Suffix>)
    requires i <= j < |tokens|
    decreases suffixes, j - i, 1
  {
    if suffixes == [] then i == j
    else exists k | i < k <= j :: DerivesSuffix(text, tokens, i, k, suffixes[0]) && DerivesSuffixes(text, tokens, k, j, suffixes[1..])
  }

  ghost predicate DerivesSuffix(text: string, tokens: seq<Token>, i: nat, j: nat, suffix: Suffix)
    requires i < j < |tokens|
    decreases suffix, j - i, 0
  {
    suffix.position == tokens[i].position &&
    match suffix
    case Field(_, name) => j == i + 1 && tokens[i].kind == FIELD && tokens[i].text == name
    case Optional(_) => j == i + 1 && Op(tokens, i, "?")
    case Index(_, None) => j == i + 2 && Op(tokens, i, "[") && Op(tokens, i + 1, "]")
    case Index(_, Some(key)) => i + 1 < j && Op(tokens, i, "[") && Op(tokens, j - 1, "]") && DerivesAny(Pipe, text, tokens, i + 1, j - 1, key)
  }

  ghost predicate DerivesArguments(text: string, tokens: seq<Token>, i: nat, j: nat, arguments: seq<Node>)
    requires i <= j < |tokens|
    decreases arguments, j - i, 0
  {
    arguments != [] &&
    if |arguments| == 1 then DerivesAny(Pipe, text, tokens, i, j, arguments[0])
    else exists k | i < k < j :: DerivesAny(Pipe, text, tokens, i, k, arguments[0])
                                 && Op(tokens, k, ";") && DerivesArguments(text, tokens, k + 1, j, arguments[1..])
  }

  ghost predicate DerivesEntries(text: string, tokens: seq<Token>, i: nat, j: nat, values: seq<Node>)
    requires i <= j < |tokens|
    decreases values, j - i, 0
  {
    values != [] && i + 2 < j && StaticKey(tokens[i]) && Op(tokens, i + 1, ":") &&
    if |values| == 1 then DerivesAny(Alternative, text, tokens, i + 2, j, values[0])
    else exists k | i + 2 < k < j :: DerivesAny(Alternative, text, tokens, i + 2, k, values[0])
                                     && Op(tokens, k, ",") && DerivesEntries(text, tokens, k + 1, j, values[1..])
  }

  /** Each hole body is a whole program over its own tokens. */
  ghost predicate DerivesHoles(text: string, holes: seq<Hole>, parts: seq<Node>)
    decreases parts, 0, 0
  {
    |holes| == |parts| &&
    (parts != [] ==> DerivesHole(text, holes[0], parts[0]) && DerivesHoles(text, holes[1..], parts[1..]))
  }

  function HoleTokens(text: string, h: Hole): seq<Token> {
    if h.start <= |text| && h.end <= |text| && LexFrom(text, h.start, h.end).Some? then LexFrom(text, h.start, h.end).value.tokens else []
  }

  ghost predicate DerivesHole(text: string, h: Hole, part: Node)
    decreases part, |HoleTokens(text, h)|, 0
  {
    var tokens := HoleTokens(text, h);
    tokens != [] && DerivesAny(Pipe, text, tokens, 0, |tokens| - 1, part)
  }
}
