/**
 The condition grammar twice: as a parsing function over positions in a token list, and
 as a derivation relation that says which tree a stretch of tokens stands for.
 */
module Grammar {
  import opened Wrappers
  import opened ConditionAst
  import opened Lexical
  import opened ScannerAgreement

  datatype Level = COMMA | OR | AND | ADDITIVE | MULTIPLICATIVE

  /** The nonterminals, lowest precedence first. */
  datatype Symbol = Pipe | Chain(level: Level) | Alternative | Comparison | Unary | Postfix

  /** A tree parsed up to `next`; its holes spent `spent` tokens and it nested `nest` levels. */
  datatype Parsed = Parsed(node: Node, next: nat, spent: nat, nest: nat)

  datatype ParsedSuffix = ParsedSuffix(suffix: Suffix, next: nat, spent: nat, nest: nat)

  datatype Listed<T> = Listed(items: seq<T>, next: nat, spent: nat, nest: nat)

  // ---------- token lists ----------

  predicate Op(tokens: seq<Token>, k: nat, text: string)
    requires k < |tokens|
  {
    tokens[k].kind == OPERATOR && tokens[k].text == text
  }

  predicate Keyword(tokens: seq<Token>, k: nat, text: string)
    requires k < |tokens|
  {
    tokens[k].kind == IDENT && tokens[k].text == text
  }

  function Operand(level: Level): Symbol {
    match level
    case COMMA => Alternative
    case OR => Chain(AND)
    case AND => Comparison
    case ADDITIVE => Chain(MULTIPLICATIVE)
    case MULTIPLICATIVE => Unary
  }

  predicate ChainToken(level: Level, t: Token) {
    match level
    case COMMA => t.kind == OPERATOR && t.text == ","
    case OR => t.kind == IDENT && t.text == "or"
    case AND => t.kind == IDENT && t.text == "and"
    case ADDITIVE => t.kind == OPERATOR && (t.text == "+" || t.text == "-")
    case MULTIPLICATIVE => t.kind == OPERATOR && (t.text == "*" || t.text == "/" || t.text == "%")
  }

  predicate ComparisonToken(t: Token) {
    t.kind == OPERATOR &&
    (t.text == "==" || t.text == "!=" || t.text == "<" || t.text == "<=" || t.text == ">" || t.text == ">=")
  }

  /** The nonterminal one precedence step up. */
  function Next(s: Symbol): Symbol {
    match s
    case Pipe => Chain(COMMA)
    case Alternative => Chain(OR)
    case Chain(level) => Operand(level)
    case Comparison => Chain(ADDITIVE)
    case _ => Postfix
  }

  /** The right operand of a binary rule: `|` and `//` group to the right. */
  function Right(s: Symbol): Symbol {
    if s.Pipe? || s.Alternative? then s else Next(s)
  }

  /** The operators of a nonterminal's binary rule. */
  predicate SplitToken(s: Symbol, t: Token) {
    match s
    case Pipe => t.kind == OPERATOR && t.text == "|"
    case Alternative => t.kind == OPERATOR && t.text == "//"
    case Chain(level) => ChainToken(level, t)
    case Comparison => ComparisonToken(t)
    case _ => false
  }

  function Rank(s: Symbol): nat {
    match s
    case Pipe => 20
    case Chain(COMMA) => 19
    case Alternative => 18
    case Chain(OR) => 17
    case Chain(AND) => 16
    case Comparison => 15
    case Chain(ADDITIVE) => 14
    case Chain(MULTIPLICATIVE) => 13
    case Unary => 12
    case Postfix => 11
  }

  predicate NamedVariableRefusal(name: string) {
    name == "ENV" || name == "__loc__"
  }

  predicate KeywordLiteral(name: string) {
    name == "true" || name == "false" || name == "null"
  }

  predicate StaticKey(t: Token) {
    t.kind == IDENT || (t.kind == STRING && t.holes == [])
  }

  // ---------- the parser as a function ----------

  function Deeper(p: Parsed): Parsed {
    p.(nest := 1 + p.nest)
  }

  function Both(node: Node, left: Parsed, right: Parsed): Parsed {
    Parsed(node, right.next, left.spent + right.spent, Max(left.nest, right.nest))
  }

  function Infix(t: Token, left: Parsed, right: Parsed): Parsed {
    Both(Binary(t.position, t.text, left.node, right.node), left, right)
  }

  /** `next == |tokens|` never happens: the END token is not consumed. */
  function Parse(s: Symbol, text: string, tokens: seq<Token>, i: nat): (r: Option<Parsed>)
    requires WellLexed(text, tokens) && i < |tokens|
    ensures r.Some? ==> i < r.value.next < |tokens|
    decreases Extent(tokens), |tokens| - i, Rank(s), 0
  {
    match s
    case Pipe | Alternative =>
      var p := ParseOnce(s, text, tokens, i);
      if p.None? then None else Some(Deeper(p.value))
    case Comparison => ParseOnce(s, text, tokens, i)
    case Chain(level) =>
      var left := Parse(Operand(level), text, tokens, i);
      if left.None? then None else ParseChain(level, text, tokens, left.value)
    case Unary =>
      if Op(tokens, i, "-") then
        var operand := Parse(Unary, text, tokens, i + 1);
        if operand.None? then None
        else Some(Deeper(operand.value.(node := Negate(tokens[i].position, operand.value.node))))
      else if Keyword(tokens, i, "try") then
        var body := Parse(Unary, text, tokens, i + 1);
        if body.None? then None
        else if Keyword(tokens, body.value.next, "catch") then
          var handler := Parse(Unary, text, tokens, body.value.next + 1);
          if handler.None? then None
          else Some(Deeper(Both(Try(tokens[i].position, body.value.node, Some(handler.value.node)), body.value, handler.value)))
        else Some(Deeper(body.value.(node := Try(tokens[i].position, body.value.node, None))))
      else
        var operand := Parse(Postfix, text, tokens, i);
        if operand.None? then None else Some(Deeper(operand.value))
    case Postfix =>
      var term := ParseTerm(text, tokens, i);
      if term.None? then None
      else
        var k := term.value.next;
        if !Keyword(tokens, k, "as") then term
        else if tokens[k + 1].kind != VARIABLE || !Op(tokens, k + 2, "|") then None
        else
          var body := Parse(Pipe, text, tokens, k + 3);
          if body.None? then None
          else Some(Both(Bind(tokens[k].position, term.value.node, tokens[k + 1].text, body.value.node), term.value, body.value))
  }

  /** An operand, and one operator with its right operand where there is one. */
  function ParseOnce(s: Symbol, text: string, tokens: seq<Token>, i: nat): (r: Option<Parsed>)
    requires WellLexed(text, tokens) && i < |tokens| && (s.Pipe? || s.Alternative? || s.Comparison?)
    ensures r.Some? ==> i < r.value.next < |tokens|
    decreases Extent(tokens), |tokens| - i, Rank(s) - 1, 1
  {
    var left := Parse(Next(s), text, tokens, i);
    if left.None? || !SplitToken(s, tokens[left.value.next]) then left
    else
      var right := Parse(Right(s), text, tokens, left.value.next + 1);
      if right.None? then None else Some(Infix(tokens[left.value.next], left.value, right.value))
  }

  /** The left-associative loop, with `left` read so far. */
  function ParseChain(level: Level, text: string, tokens: seq<Token>, left: Parsed): (r: Option<Parsed>)
    requires WellLexed(text, tokens) && left.next < |tokens|
    ensures r.Some? ==> left.next <= r.value.next < |tokens|
    ensures r.Some? ==> left.spent <= r.value.spent && left.nest <= r.value.nest
    decreases Extent(tokens), |tokens| - left.next, Rank(Chain(level)), 0
  {
    var t := tokens[left.next];
    if !ChainToken(level, t) then Some(left)
    else
      var right := Parse(Operand(level), text, tokens, left.next + 1);
      if right.None? then None
      else ParseChain(level, text, tokens, Infix(t, left, right.value))
  }

  /** A primary with its suffixes. */
  function ParseTerm(text: string, tokens: seq<Token>, i: nat): (r: Option<Parsed>)
    requires WellLexed(text, tokens) && i < |tokens|
    ensures r.Some? ==> i < r.value.next < |tokens|
    decreases Extent(tokens), |tokens| - i, 10, 0
  {
    var primary := ParsePrimary(text, tokens, i);
    if primary.None? then None
    else
      var tail := ParseSuffixes(text, tokens, primary.value.next);
      if tail.None? then None
      else
        var node := if tail.value.items == [] then primary.value.node
                    else Projection(tokens[i].position, primary.value.node, tail.value.items);
        Some(Parsed(node, tail.value.next, primary.value.spent + tail.value.spent, Max(primary.value.nest, tail.value.nest)))
  }

  predicate SuffixToken(t: Token) {
    t.kind == FIELD || (t.kind == OPERATOR && (t.text == "[" || t.text == "?"))
  }

  function ParseSuffixes(text: string, tokens: seq<Token>, i: nat): (r: Option<Listed<Suffix>>)
    requires WellLexed(text, tokens) && i < |tokens|
    ensures r.Some? ==> i <= r.value.next < |tokens|
    ensures r.Some? && tokens[i].kind == FIELD ==> i < r.value.next
    decreases Extent(tokens), |tokens| - i, 8, 0
  {
    if !SuffixToken(tokens[i]) then Some(Listed([], i, 0, 0))
    else
      var head := ParseSuffix(text, tokens, i);
      if head.None? then None else PrependSuffix(head.value, ParseSuffixes(text, tokens, head.value.next))
  }

  function ParseSuffix(text: string, tokens: seq<Token>, i: nat): (r: Option<ParsedSuffix>)
    requires WellLexed(text, tokens) && i < |tokens| && SuffixToken(tokens[i])
    ensures r.Some? ==> i < r.value.next < |tokens|
    decreases Extent(tokens), |tokens| - i, 7, 0
  {
    var t := tokens[i];
    if t.kind == FIELD then Some(ParsedSuffix(Suffix.Field(t.position, t.text), i + 1, 0, 0))
    else if t.text == "?" then Some(ParsedSuffix(Suffix.Optional(t.position), i + 1, 0, 0))
    else if Op(tokens, i + 1, "]") then Some(ParsedSuffix(Suffix.Index(t.position, None), i + 2, 0, 0))
    else
      var key := Parse(Pipe, text, tokens, i + 1);
      if key.None? || !Op(tokens, key.value.next, "]") then None
      else Some(ParsedSuffix(Suffix.Index(t.position, Some(key.value.node)), key.value.next + 1, key.value.spent, key.value.nest))
  }

  function PrependSuffix(head: ParsedSuffix, tail: Option<Listed<Suffix>>): (r: Option<Listed<Suffix>>) {
    if tail.None? then None
    else Some(Listed([head.suffix] + tail.value.items, tail.value.next, head.spent + tail.value.spent, Max(head.nest, tail.value.nest)))
  }

  /** A leading field is left to the suffixes: it projects the value flowing in. */
  function ParsePrimary(text: string, tokens: seq<Token>, i: nat): (r: Option<Parsed>)
    requires WellLexed(text, tokens) && i < |tokens|
    ensures r.Some? ==> i <= r.value.next < |tokens|
    ensures r.Some? && tokens[i].kind != FIELD ==> i < r.value.next
    ensures r.Some? && tokens[i].kind == FIELD ==> r.value.next == i
    decreases Extent(tokens), |tokens| - i, 9, 0
  {
    var t := tokens[i];
    match t.kind
    case FIELD => Some(Parsed(Root(t.position), i, 0, 0))
    case STRING =>
      var parts := ParseHoles(text, tokens, i, t.holes);
      if parts.None? then None
      else Some(Parsed(String(t.position, t.text, parts.value.items), i + 1, parts.value.spent, parts.value.nest))
    case NUMBER => Some(Parsed(Constant(t.position), i + 1, 0, 0))
    case VARIABLE =>
      if NamedVariableRefusal(t.text) then None else Some(Parsed(Variable(t.position, t.text), i + 1, 0, 0))
    case FORMAT => None
    case END => None
    case IDENT =>
      if KeywordLiteral(t.text) then Some(Parsed(Constant(t.position), i + 1, 0, 0))
      else if Op(tokens, i + 1, "(") then
        var arguments := ParseArguments(text, tokens, i + 2);
        if arguments.None? || !Op(tokens, arguments.value.next, ")") || !Allowlisted(t.text, |arguments.value.items|) then None
        else Some(Parsed(Call(t.position, t.text, arguments.value.items), arguments.value.next + 1,
                         arguments.value.spent, arguments.value.nest))
      else if Allowlisted(t.text, 0) then Some(Parsed(Call(t.position, t.text, []), i + 1, 0, 0))
      else None
    case OPERATOR =>
      if t.text == "." then Some(Parsed(Root(t.position), i + 1, 0, 0))
      else if t.text == "(" then
        var inner := Parse(Pipe, text, tokens, i + 1);
        if inner.None? || !Op(tokens, inner.value.next, ")") then None
        else Some(inner.value.(next := inner.value.next + 1))
      else if t.text == "[" then
        if Op(tokens, i + 1, "]") then Some(Parsed(ArrayConstruction(t.position, None), i + 2, 0, 0))
        else
          var element := Parse(Pipe, text, tokens, i + 1);
          if element.None? || !Op(tokens, element.value.next, "]") then None
          else Some(element.value.(node := ArrayConstruction(t.position, Some(element.value.node)), next := element.value.next + 1))
      else if t.text == "{" then
        if Op(tokens, i + 1, "}") then Some(Parsed(ObjectConstruction(t.position, []), i + 2, 0, 0))
        else
          var entries := ParseEntries(text, tokens, i + 1);
          if entries.None? || !Op(tokens, entries.value.next, "}") then None
          else Some(Parsed(ObjectConstruction(t.position, entries.value.items), entries.value.next + 1,
                           entries.value.spent, entries.value.nest))
      else None
  }

  function PrependNode(head: Parsed, tail: Option<Listed<Node>>): (r: Option<Listed<Node>>) {
    if tail.None? then None
    else Some(Listed([head.node] + tail.value.items, tail.value.next, head.spent + tail.value.spent, Max(head.nest, tail.value.nest)))
  }

  /** `e; e; ...` */
  function ParseArguments(text: string, tokens: seq<Token>, i: nat): (r: Option<Listed<Node>>)
    requires WellLexed(text, tokens) && i < |tokens|
    ensures r.Some? ==> i < r.value.next < |tokens|
    decreases Extent(tokens), |tokens| - i, 21, 0
  {
    var head := Parse(Pipe, text, tokens, i);
    if head.None? then None
    else if Op(tokens, head.value.next, ";") then PrependNode(head.value, ParseArguments(text, tokens, head.value.next + 1))
    else Some(Listed([head.value.node], head.value.next, head.value.spent, head.value.nest))
  }

  /** `key: value, ...`, keeping the values. */
  function ParseEntries(text: string, tokens: seq<Token>, i: nat): (r: Option<Listed<Node>>)
    requires WellLexed(text, tokens) && i < |tokens|
    ensures r.Some? ==> i < r.value.next < |tokens|
    decreases Extent(tokens), |tokens| - i, 21, 0
  {
    var head := ParseEntry(text, tokens, i);
    if head.None? then None
    else if Op(tokens, head.value.next, ",") then PrependNode(head.value, ParseEntries(text, tokens, head.value.next + 1))
    else Some(Listed([head.value.node], head.value.next, head.value.spent, head.value.nest))
  }

  function ParseEntry(text: string, tokens: seq<Token>, i: nat): (r: Option<Parsed>)
    requires WellLexed(text, tokens) && i < |tokens|
    ensures r.Some? ==> i < r.value.next < |tokens|
    decreases Extent(tokens), |tokens| - i, 20, 0
  {
    if !StaticKey(tokens[i]) || !Op(tokens, i + 1, ":") then None else Parse(Alternative, text, tokens, i + 2)
  }

  /** The bodies of a string's holes, each a program of its own. */
  function ParseHoles(text: string, tokens: seq<Token>, i: nat, holes: seq<Hole>): (r: Option<Listed<Node>>)
    requires WellLexed(text, tokens) && i < |tokens| - 1
    requires forall h :: h in holes ==> h in tokens[i].holes
    decreases Extent(tokens), |tokens| - i, 7, |holes|
  {
    if holes == [] then Some(Listed([], i, 0, 0))
    else
      var h := holes[0];
      HoleInside(text, tokens, i, h);
      var head := ParseInterpolation(text, h);
      if head.None? then None
      else PrependNode(head.value, ParseHoles(text, tokens, i, holes[1..]))
  }

  function ParseInterpolation(text: string, h: Hole): (r: Option<Parsed>)
    requires ScannedHole(text, h)
    decreases h.end - h.start + 1, 0, 0, 0
  {
    var lexed := LexFrom(text, h.start, h.end);
    if lexed.None? then None
    else
      HoleWellLexed(text, h);
      var tokens := lexed.value.tokens;
      var body := Parse(Pipe, text, tokens, 0);
      if body.None? || tokens[body.value.next].kind != END then None
      else Some(Parsed(body.value.node, body.value.next, |tokens| + body.value.spent, 1 + Max(lexed.value.nest, body.value.nest)))
  }
}
