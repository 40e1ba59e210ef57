/** The recursive-descent parser as it runs: an index into the tokens and a shared budget. */
module Parser {
  import opened Wrappers
  import opened ConditionAst
  import opened Lexical
  import opened ScannerAgreement
  import opened Grammar
  import opened Lexer

  /** A stretch of parsing that costs `spent` tokens and `nest` levels stays within the budget. */
  predicate Affordable(spent: nat, nest: nat, tokens: nat, depth: nat) {
    tokens + spent <= MAX_TOKENS && depth + nest <= MAX_NESTING_DEPTH
  }

  /**
   What one rule did, from the budget it started with: it succeeds exactly when there is a
   parse the budget affords, and then stands behind it with the depth restored.
   */
  predicate Ran(p: Option<Parsed>, r: Result<Node>, tokens: nat, depth: nat, tokens': nat, depth': nat, index': nat) {
    && (r.Ok? <==> p.Some? && Affordable(p.value.spent, p.value.nest, tokens, depth))
    && (r.Ok? ==> r.value == p.value.node && index' == p.value.next && tokens' == tokens + p.value.spent && depth' == depth)
    && tokens <= tokens' && depth <= depth'
  }

  predicate RanList<T(==)>(p: Option<Listed<T>>, r: Result<seq<T>>, tokens: nat, depth: nat, tokens': nat, depth': nat, index': nat) {
    && (r.Ok? <==> p.Some? && Affordable(p.value.spent, p.value.nest, tokens, depth))
    && (r.Ok? ==> r.value == p.value.items && index' == p.value.next && tokens' == tokens + p.value.spent && depth' == depth)
    && tokens <= tokens' && depth <= depth'
  }

  /** Items read so far, continued by the rest. */
  ghost function Resumed<T>(items: seq<T>, spent: nat, nest: nat, rest: Option<Listed<T>>): Option<Listed<T>> {
    if rest.None? then None
    else Some(Listed(items + rest.value.items, rest.value.next, spent + rest.value.spent, Max(nest, rest.value.nest)))
  }

  lemma ResumedStart<T>(rest: Option<Listed<T>>)
    ensures Resumed([], 0, 0, rest) == rest
  {
    if rest.Some? {
      assert [] + rest.value.items == rest.value.items;
    }
  }

  lemma ResumedNext<T>(items: seq<T>, spent: nat, nest: nat, head: T, more: nat, deeper: nat, rest: Option<Listed<T>>)
    requires rest.Some?
    ensures Resumed(items, spent, nest, Some(Listed([head] + rest.value.items, rest.value.next, more + rest.value.spent, Max(deeper, rest.value.nest))))
            == Resumed(items + [head], spent + more, Max(nest, deeper), rest)
  {
    assert items + ([head] + rest.value.items) == items + [head] + rest.value.items;
  }

  lemma ResumedPrepend(items: seq<Node>, spent: nat, nest: nat, head: Parsed, rest: Option<Listed<Node>>)
    ensures Resumed(items, spent, nest, PrependNode(head, rest))
            == Resumed(items + [head.node], spent + head.spent, Max(nest, head.nest), rest)
  {
    if rest.Some? {
      ResumedNext(items, spent, nest, head.node, head.spent, head.nest, rest);
    }
  }

  lemma HolesStep(text: string, tokens: seq<Token>, i: nat, holes: seq<Hole>)
    requires WellLexed(text, tokens) && i < |tokens| - 1 && holes != []
    requires forall h :: h in holes ==> h in tokens[i].holes
    ensures ScannedHole(text, holes[0])
    ensures ParseHoles(text, tokens, i, holes) ==
              if ParseInterpolation(text, holes[0]).None? then None
              else PrependNode(ParseInterpolation(text, holes[0]).value, ParseHoles(text, tokens, i, holes[1..]))
  {
    HoleInside(text, tokens, i, holes[0]);
  }

  /** One hole further. */
  lemma HolesResumed(parts: seq<Node>, spent: nat, nest: nat, head: Option<Parsed>, rest: Option<Listed<Node>>)
    ensures Resumed(parts, spent, nest, if head.None? then None else PrependNode(head.value, rest)) ==
            if head.None? then None
            else Resumed(parts + [head.value.node], spent + head.value.spent, Max(nest, head.value.nest), rest)
  {
    if head.Some? {
      ResumedPrepend(parts, spent, nest, head.value, rest);
    }
  }

  /** One turn of a left-associative loop. */
  lemma ChainTurn(level: Level, text: string, tokens: seq<Token>, left: Parsed)
    requires WellLexed(text, tokens) && left.next + 1 < |tokens| && ChainToken(level, tokens[left.next])
    ensures var right := Parse(Operand(level), text, tokens, left.next + 1);
            ParseChain(level, text, tokens, left) ==
              if right.None? then None else ParseChain(level, text, tokens, Infix(tokens[left.next], left, right.value))
  {
  }

  class TokenParser {
    const text: string
    const tokens: seq<Token>
    const budget: Budget
    var index: nat

    constructor (text: string, tokens: seq<Token>, budget: Budget)
      ensures this.text == text && this.tokens == tokens && this.budget == budget && index == 0
    {
      this.text, this.tokens, this.budget, this.index := text, tokens, budget, 0;
    }

    ghost predicate Ready()
      reads this, budget
    {
      WellLexed(text, tokens) && index < |tokens| && budget.tokens <= MAX_TOKENS && budget.depth <= MAX_NESTING_DEPTH
    }

    function Peek(): Token
      requires index < |tokens|
      reads this
    {
      tokens[index]
    }

    predicate AtOperator(operator: string)
      requires index < |tokens|
      reads this
    {
      Op(tokens, index, operator)
    }

    predicate AtKeyword(keyword: string)
      requires index < |tokens|
      reads this
    {
      Keyword(tokens, index, keyword)
    }

    method Advance() returns (token: Token)
      requires Ready() && Peek().kind != END
      modifies this
      ensures token == old(Peek()) && index == old(index) + 1 && Ready()
    {
      token := tokens[index];
      index := index + 1;
    }

    method ParsePipe() returns (r: Result<Node>)
      requires Ready()
      modifies this, budget
      ensures Ran(Parse(Pipe, text, tokens, old(index)), r, old(budget.tokens), old(budget.depth), budget.tokens, budget.depth, index)
      decreases Extent(tokens), |tokens| - index, 20, 1
    {
      var entered := budget.Descend();
      if !entered {
        return Refused;
      }
      r := ParseLeft(COMMA);
      if r.Ok? && AtOperator("|") {
        var token := Advance();
        var right := ParsePipe();
        r := if right.Ok? then Ok(Binary(token.position, "|", r.value, right.value)) else Refused;
      }
      budget.Ascend();
    }

    method ParseAlternative() returns (r: Result<Node>)
      requires Ready()
      modifies this, budget
      ensures Ran(Parse(Alternative, text, tokens, old(index)), r, old(budget.tokens), old(budget.depth), budget.tokens, budget.depth, index)
      decreases Extent(tokens), |tokens| - index, 18, 1
    {
      var entered := budget.Descend();
      if !entered {
        return Refused;
      }
      r := ParseLeft(OR);
      if r.Ok? && AtOperator("//") {
        var token := Advance();
        var right := ParseAlternative();
        r := if right.Ok? then Ok(Binary(token.position, "//", r.value, right.value)) else Refused;
      }
      budget.Ascend();
    }

    method ParseComparison() returns (r: Result<Node>)
      requires Ready()
      modifies this, budget
      ensures Ran(Parse(Comparison, text, tokens, old(index)), r, old(budget.tokens), old(budget.depth), budget.tokens, budget.depth, index)
      decreases Extent(tokens), |tokens| - index, 15, 1
    {
      r := ParseLeft(ADDITIVE);
      if r.Ok? && ComparisonToken(Peek()) {
        var token := Advance();
        var right := ParseLeft(ADDITIVE);
        r := if right.Ok? then Ok(Binary(token.position, token.text, r.value, right.value)) else Refused;
      }
    }

    method ParseOperand(level: Level) returns (r: Result<Node>)
      requires Ready()
      modifies this, budget
      ensures Ran(Parse(Operand(level), text, tokens, old(index)), r, old(budget.tokens), old(budget.depth), budget.tokens, budget.depth, index)
      decreases Extent(tokens), |tokens| - index, Rank(Operand(level)), 2
    {
      match level
      case COMMA => r := ParseAlternative();
      case OR => r := ParseLeft(AND);
      case AND => r := ParseComparison();
      case ADDITIVE => r := ParseLeft(MULTIPLICATIVE);
      case MULTIPLICATIVE => r := ParseUnary();
    }

    /** The five left-associative loops: `,`, `or`, `and`, `+ -`, `* / %`. */
    method ParseLeft(level: Level) returns (r: Result<Node>)
      requires Ready()
      modifies this, budget
      ensures Ran(Parse(Chain(level), text, tokens, old(index)), r, old(budget.tokens), old(budget.depth), budget.tokens, budget.depth, index)
      decreases Extent(tokens), |tokens| - index, Rank(Chain(level)), 1
    {
      r := ParseOperand(level);
      if r.Refused? {
        return;
      }
      ghost var left := Parse(Operand(level), text, tokens, old(index)).value;
      while ChainToken(level, Peek())
        invariant Ready() && r == Ok(left.node) && index == left.next && old(index) < index
        invariant budget.tokens == old(budget.tokens) + left.spent && budget.depth == old(budget.depth)
        invariant Affordable(left.spent, left.nest, old(budget.tokens), old(budget.depth))
        invariant Parse(Chain(level), text, tokens, old(index)) == ParseChain(level, text, tokens, left)
        decreases |tokens| - index
      {
        var token := Advance();
        ChainTurn(level, text, tokens, left);
        ghost var parsed := Parse(Operand(level), text, tokens, index);
        var right := ParseOperand(level);
        if right.Refused? {
          return Refused;
        }
        left := Infix(token, left, parsed.value);
        r := Ok(Binary(token.position, token.text, r.value, right.value));
      }
    }

    method ParseUnary() returns (r: Result<Node>)
      requires Ready()
      modifies this, budget
      ensures Ran(Parse(Unary, text, tokens, old(index)), r, old(budget.tokens), old(budget.depth), budget.tokens, budget.depth, index)
      decreases Extent(tokens), |tokens| - index, 12, 1
    {
      var entered := budget.Descend();
      if !entered {
        return Refused;
      }
      if AtOperator("-") {
        var token := Advance();
        r := ParseUnary();
        r := if r.Ok? then Ok(Negate(token.position, r.value)) else Refused;
      } else if AtKeyword("try") {
        r := ParseTry();
      } else {
        r := ParsePostfix();
      }
      budget.Ascend();
    }

    /** Inside the level `ParseUnary` has entered. */
    method ParseTry() returns (r: Result<Node>)
      requires Ready() && AtKeyword("try") && budget.depth > 0
      modifies this, budget
      ensures budget.depth > 0
      ensures Ran(Parse(Unary, text, tokens, old(index)), r, old(budget.tokens), old(budget.depth) - 1, budget.tokens, budget.depth - 1, index)
      decreases Extent(tokens), |tokens| - index, 12, 0
    {
      var token := Advance();
      var body := ParseUnary();
      if body.Refused? {
        return Refused;
      }
      var handler: Option<Node> := None;
      if AtKeyword("catch") {
        var _ := Advance();
        var handled := ParseUnary();
        if handled.Refused? {
          return Refused;
        }
        handler := Some(handled.value);
      }
      return Ok(Try(token.position, body.value, handler));
    }

    method ParsePostfix() returns (r: Result<Node>)
      requires Ready()
      modifies this, budget
      ensures Ran(Parse(Postfix, text, tokens, old(index)), r, old(budget.tokens), old(budget.depth), budget.tokens, budget.depth, index)
      decreases Extent(tokens), |tokens| - index, 11, 1
    {
      r := ParseTermNode();
      if r.Ok? && AtKeyword("as") {
        r := ParseBinding(r.value);
      }
    }

    method ParseTermNode() returns (r: Result<Node>)
      requires Ready()
      modifies this, budget
      ensures Ran(ParseTerm(text, tokens, old(index)), r, old(budget.tokens), old(budget.depth), budget.tokens, budget.depth, index)
      decreases Extent(tokens), |tokens| - index, 10, 1
    {
      var start := Peek();
      r := ParsePrimaryTerm();
      if r.Refused? {
        return;
      }
      var suffixes := ParseSuffixList();
      if suffixes.Refused? {
        return Refused;
      }
      if suffixes.value != [] {
        r := Ok(Projection(start.position, r.value, suffixes.value));
      }
    }

    /** `as $variable | body` after `source`. */
    method ParseBinding(source: Node) returns (r: Result<Node>)
      requires Ready() && AtKeyword("as")
      modifies this, budget
      ensures var k := old(index);
              Ran(if tokens[k + 1].kind == VARIABLE && Op(tokens, k + 2, "|") then Parse(Pipe, text, tokens, k + 3) else None,
                  if r.Ok? && r.value.Bind? then Ok(r.value.body) else Refused,
                  old(budget.tokens), old(budget.depth), budget.tokens, budget.depth, index)
      ensures r.Ok? ==> r.value.Bind? && r.value == Bind(tokens[old(index)].position, source, tokens[old(index) + 1].text, r.value.body)
      decreases Extent(tokens), |tokens| - index, 11, 0
    {
      var token := Advance();
      var variable := Peek();
      if variable.kind != VARIABLE {
        return Refused;
      }
      var _ := Advance();
      if !AtOperator("|") {
        return Refused;
      }
      var _ := Advance();
      var body := ParsePipe();
      r := if body.Ok? then Ok(Bind(token.position, source, variable.text, body.value)) else Refused;
    }

    method ParseSuffixList() returns (r: Result<seq<Suffix>>)
      requires Ready()
      modifies this, budget
      ensures RanList(ParseSuffixes(text, tokens, old(index)), r, old(budget.tokens), old(budget.depth), budget.tokens, budget.depth, index)
      decreases Extent(tokens), |tokens| - index, 8, 1
    {
      var suffixes: seq<Suffix> := [];
      ghost var spent: nat, nest: nat := 0, 0;
      ResumedStart(ParseSuffixes(text, tokens, index));
      while SuffixToken(Peek())
        invariant Ready() && old(index) <= index
        invariant budget.tokens == old(budget.tokens) + spent && budget.depth == old(budget.depth)
        invariant Affordable(spent, nest, old(budget.tokens), old(budget.depth))
        invariant ParseSuffixes(text, tokens, old(index)) == Resumed(suffixes, spent, nest, ParseSuffixes(text, tokens, index))
        decreases |tokens| - index
      {
        ghost var start := index;
        var suffix := ParseOneSuffix();
        if suffix.Refused? {
          return Refused;
        }
        ghost var p := ParseSuffix(text, tokens, start).value;
        ghost var rest := ParseSuffixes(text, tokens, index);
        if rest.Some? {
          ResumedNext(suffixes, spent, nest, suffix.value, p.spent, p.nest, rest);
        }
        suffixes, spent, nest := suffixes + [suffix.value], spent + p.spent, Max(nest, p.nest);
      }
      assert suffixes + [] == suffixes;
      return Ok(suffixes);
    }

    method ParseOneSuffix() returns (r: Result<Suffix>)
      requires Ready() && SuffixToken(Peek())
      modifies this, budget
      ensures r.Ok? <==> var p := ParseSuffix(text, tokens, old(index));
                         p.Some? && Affordable(p.value.spent, p.value.nest, old(budget.tokens), old(budget.depth))
      ensures r.Ok? ==> var p := ParseSuffix(text, tokens, old(index)).value;
                        r.value == p.suffix && index == p.next && budget.tokens == old(budget.tokens) + p.spent && budget.depth == old(budget.depth)
      ensures old(budget.tokens) <= budget.tokens && old(budget.depth) <= budget.depth
      decreases Extent(tokens), |tokens| - index, 7, 1
    {
      var token := Advance();
      if token.kind == FIELD {
        return Ok(Suffix.Field(token.position, token.text));
      }
      if token.text == "?" {
        return Ok(Suffix.Optional(token.position));
      }
      if AtOperator("]") {
        var _ := Advance();
        return Ok(Suffix.Index(token.position, None));
      }
      var key := ParsePipe();
      if key.Refused? || !AtOperator("]") {
        return Refused;
      }
      var _ := Advance();
      return Ok(Suffix.Index(token.position, Some(key.value)));
    }

    method ParsePrimaryTerm() returns (r: Result<Node>)
      requires Ready()
      modifies this, budget
      ensures Ran(ParsePrimary(text, tokens, old(index)), r, old(budget.tokens), old(budget.depth), budget.tokens, budget.depth, index)
      decreases Extent(tokens), |tokens| - index, 9, 3
    {
      var token := Peek();
      match token.kind
      case FIELD =>
        // The suffix loop consumes the field itself.
        return Ok(Root(token.position));
      case STRING =>
        var _ := Advance();
        var parts := ParseInterpolations(token, index - 1);
        r := if parts.Ok? then Ok(String(token.position, token.text, parts.value)) else Refused;
      case NUMBER =>
        var _ := Advance();
        return Ok(Constant(token.position));
      case VARIABLE =>
        var _ := Advance();
        r := if NamedVariableRefusal(token.text) then Refused else Ok(Variable(token.position, token.text));
      case IDENT => r := ParseIdentifier();
      case OPERATOR => r := ParseOperatorTerm();
      case FORMAT => return Refused;
      case END => return Refused;
    }

    method ParseOperatorTerm() returns (r: Result<Node>)
      requires Ready() && Peek().kind == OPERATOR
      modifies this, budget
      ensures Ran(ParsePrimary(text, tokens, old(index)), r, old(budget.tokens), old(budget.depth), budget.tokens, budget.depth, index)
      decreases Extent(tokens), |tokens| - index, 9, 2
    {
      var token := Peek();
      if token.text == "." {
        var _ := Advance();
        return Ok(Root(token.position));
      }
      if token.text == "(" {
        var _ := Advance();
        r := ParsePipe();
        if r.Ok? {
          if !AtOperator(")") {
            return Refused;
          }
          var _ := Advance();
        }
        return;
      }
      if token.text == "[" {
        var _ := Advance();
        if AtOperator("]") {
          var _ := Advance();
          return Ok(ArrayConstruction(token.position, None));
        }
        var element := ParsePipe();
        if element.Refused? || !AtOperator("]") {
          return Refused;
        }
        var _ := Advance();
        return Ok(ArrayConstruction(token.position, Some(element.value)));
      }
      if token.text == "{" {
        r := ParseObject();
        return;
      }
      return Refused;
    }

    method ParseObject() returns (r: Result<Node>)
      requires Ready() && AtOperator("{")
      modifies this, budget
      ensures Ran(ParsePrimary(text, tokens, old(index)), r, old(budget.tokens), old(budget.depth), budget.tokens, budget.depth, index)
      decreases Extent(tokens), |tokens| - index, 9, 1
    {
      var token := Advance();
      var values: seq<Node> := [];
      if !AtOperator("}") {
        var entries := ParseEntryList();
        if entries.Refused? || !AtOperator("}") {
          return Refused;
        }
        values := entries.value;
      }
      var _ := Advance();
      return Ok(ObjectConstruction(token.position, values));
    }

    method ParseEntryList() returns (r: Result<seq<Node>>)
      requires Ready()
      modifies this, budget
      ensures RanList(ParseEntries(text, tokens, old(index)), r, old(budget.tokens), old(budget.depth), budget.tokens, budget.depth, index)
      decreases Extent(tokens), |tokens| - index, 21, 1
    {
      var values: seq<Node> := [];
      ghost var spent: nat, nest: nat := 0, 0;
      ResumedStart(ParseEntries(text, tokens, index));
      while true
        invariant Ready() && old(index) <= index
        invariant budget.tokens == old(budget.tokens) + spent && budget.depth == old(budget.depth)
        invariant Affordable(spent, nest, old(budget.tokens), old(budget.depth))
        invariant ParseEntries(text, tokens, old(index)) == Resumed(values, spent, nest, ParseEntries(text, tokens, index))
        decreases |tokens| - index
      {
        ghost var start := index;
        var value := ParseOneEntry();
        if value.Refused? {
          return Refused;
        }
        ghost var p := ParseEntry(text, tokens, start).value;
        if !AtOperator(",") {
          return Ok(values + [value.value]);
        }
        var _ := Advance();
        ghost var rest := ParseEntries(text, tokens, index);
        if rest.Some? {
          ResumedNext(values, spent, nest, value.value, p.spent, p.nest, rest);
        }
        values, spent, nest := values + [value.value], spent + p.spent, Max(nest, p.nest);
      }
    }

    /** `key: value` under a static key. */
    method ParseOneEntry() returns (r: Result<Node>)
      requires Ready()
      modifies this, budget
      ensures Ran(ParseEntry(text, tokens, old(index)), r, old(budget.tokens), old(budget.depth), budget.tokens, budget.depth, index)
      decreases Extent(tokens), |tokens| - index, 20, 2
    {
      if !StaticKey(Peek()) {
        return Refused;
      }
      var _ := Advance();
      if !AtOperator(":") {
        return Refused;
      }
      var _ := Advance();
      r := ParseAlternative();
    }

    method ParseIdentifier() returns (r: Result<Node>)
      requires Ready() && Peek().kind == IDENT
      modifies this, budget
      ensures Ran(ParsePrimary(text, tokens, old(index)), r, old(budget.tokens), old(budget.depth), budget.tokens, budget.depth, index)
      decreases Extent(tokens), |tokens| - index, 9, 2
    {
      var token := Advance();
      if KeywordLiteral(token.text) {
        return Ok(Constant(token.position));
      }
      var arguments: seq<Node> := [];
      if AtOperator("(") {
        var _ := Advance();
        var parsed := ParseArgumentList();
        if parsed.Refused? || !AtOperator(")") {
          return Refused;
        }
        var _ := Advance();
        arguments := parsed.value;
      }
      r := if Allowlisted(token.text, |arguments|) then Ok(Call(token.position, token.text, arguments)) else Refused;
    }

    method ParseArgumentList() returns (r: Result<seq<Node>>)
      requires Ready()
      modifies this, budget
      ensures RanList(ParseArguments(text, tokens, old(index)), r, old(budget.tokens), old(budget.depth), budget.tokens, budget.depth, index)
      decreases Extent(tokens), |tokens| - index, 21, 1
    {
      var arguments: seq<Node> := [];
      ghost var spent: nat, nest: nat := 0, 0;
      ResumedStart(ParseArguments(text, tokens, index));
      while true
        invariant Ready() && old(index) <= index
        invariant budget.tokens == old(budget.tokens) + spent && budget.depth == old(budget.depth)
        invariant Affordable(spent, nest, old(budget.tokens), old(budget.depth))
        invariant ParseArguments(text, tokens, old(index)) == Resumed(arguments, spent, nest, ParseArguments(text, tokens, index))
        decreases |tokens| - index
      {
        ghost var start := index;
        var argument := ParsePipe();
        if argument.Refused? {
          return Refused;
        }
        ghost var p := Parse(Pipe, text, tokens, start).value;
        if !AtOperator(";") {
          return Ok(arguments + [argument.value]);
        }
        var _ := Advance();
        ghost var rest := ParseArguments(text, tokens, index);
        if rest.Some? {
          ResumedNext(arguments, spent, nest, argument.value, p.spent, p.nest, rest);
        }
        arguments, spent, nest := arguments + [argument.value], spent + p.spent, Max(nest, p.nest);
      }
    }

    /** The holes of string token `at`, which the index has just passed. */
    method ParseInterpolations(token: Token, ghost at: nat) returns (r: Result<seq<Node>>)
      requires Ready() && at + 1 == index && token == tokens[at]
      modifies budget
      ensures RanList(ParseHoles(text, tokens, at, token.holes), r, old(budget.tokens), old(budget.depth), budget.tokens, budget.depth, at)
      decreases Extent(tokens), |tokens| - at, 7, 1
    {
      var parts: seq<Node> := [];
      ghost var spent: nat, nest: nat := 0, 0;
      ResumedStart(ParseHoles(text, tokens, at, token.holes));
      var remaining := token.holes;
      while remaining != []
        invariant forall h :: h in remaining ==> h in token.holes
        invariant budget.tokens == old(budget.tokens) + spent && budget.depth == old(budget.depth)
        invariant Affordable(spent, nest, old(budget.tokens), old(budget.depth))
        invariant ParseHoles(text, tokens, at, token.holes) == Resumed(parts, spent, nest, ParseHoles(text, tokens, at, remaining))
        decreases |remaining|
      {
        var hole := remaining[0];
        HoleInside(text, tokens, at, hole);
        HolesStep(text, tokens, at, remaining);
        ghost var head := ParseInterpolation(text, hole);
        HolesResumed(parts, spent, nest, head, ParseHoles(text, tokens, at, remaining[1..]));
        var part := ParseHole(hole);
        if part.Refused? {
          return Refused;
        }
        ghost var p := head.value;
        remaining := remaining[1..];
        parts, spent, nest := parts + [part.value], spent + p.spent, Max(nest, p.nest);
      }
      assert parts + [] == parts;
      return Ok(parts);
    }

    /** A hole body, lexed and parsed under the enclosing scan's budget. */
    method ParseHole(hole: Hole) returns (r: Result<Node>)
      requires Ready() && ScannedHole(text, hole)
      modifies budget
      ensures var p := ParseInterpolation(text, hole);
              Ran(p, r, old(budget.tokens), old(budget.depth), budget.tokens, budget.depth, if p.Some? then p.value.next else 0)
      decreases hole.end - hole.start + 1, 0, 0, 1
    {
      var entered := budget.Descend();
      if !entered {
        return Refused;
      }
      var lexed := Lex(text, budget, hole.start, hole.end);
      if lexed.Refused? {
        budget.Ascend();
        return Refused;
      }
      HoleWellLexed(text, hole);
      var parser := new TokenParser(text, lexed.value, budget);
      r := parser.ParsePipe();
      if r.Ok? && parser.Peek().kind != END {
        r := Refused;
      }
      budget.Ascend();
    }
  }
}
