/** Every tree the parser returns is derived by exactly the tokens it consumed. */
module ParserSoundness {
  import opened Wrappers
  import opened ConditionAst
  import opened Lexical
  import opened ScannerAgreement
  import opened Grammar
  import opened Derivation

  /** The tree is derivable, and the parser never stops short of a token that belongs to it. */
  lemma {:induction false} ParseSound(s: Symbol, text: string, tokens: seq<Token>, i: nat) returns (open: bool)
    requires WellLexed(text, tokens) && i < |tokens| && Parse(s, text, tokens, i).Some?
    ensures var p := Parse(s, text, tokens, i).value;
            Derives(s, text, tokens, i, p.next, p.node, open) && !Extends(s, open, tokens[p.next])
    decreases Extent(tokens), |tokens| - i, Rank(s), 2
  {
    match s
    case Chain(level) =>
      open := ParseSound(Operand(level), text, tokens, i);
      open := ChainSound(level, text, tokens, i, Parse(Operand(level), text, tokens, i).value, open);
    case Unary => open := UnarySound(text, tokens, i);
    case Postfix => open := PostfixSound(text, tokens, i);
    case _ => open := OnceSound(s, text, tokens, i);
  }

  /** The left operand, and the right one if there is an operator. */
  lemma OnceRead(s: Symbol, text: string, tokens: seq<Token>, i: nat) returns (left: Parsed, right: Option<Parsed>)
    requires WellLexed(text, tokens) && i < |tokens| && (s.Pipe? || s.Alternative? || s.Comparison?)
    requires ParseOnce(s, text, tokens, i).Some?
    ensures i < left.next < |tokens| && Parse(Next(s), text, tokens, i) == Some(left)
    ensures right.Some? <==> SplitToken(s, tokens[left.next])
    ensures var p := ParseOnce(s, text, tokens, i).value;
            if right.None? then p == left
            else left.next + 1 < right.value.next < |tokens| && Parse(Right(s), text, tokens, left.next + 1) == right
                 && p == Infix(tokens[left.next], left, right.value)
  {
    left := Parse(Next(s), text, tokens, i).value;
    right := if SplitToken(s, tokens[left.next]) then Parse(Right(s), text, tokens, left.next + 1) else None;
  }

  lemma {:induction false} OnceSound(s: Symbol, text: string, tokens: seq<Token>, i: nat) returns (open: bool)
    requires WellLexed(text, tokens) && i < |tokens| && (s.Pipe? || s.Alternative? || s.Comparison?)
    requires ParseOnce(s, text, tokens, i).Some?
    ensures var p := ParseOnce(s, text, tokens, i).value;
            Derives(s, text, tokens, i, p.next, p.node, open) && !Extends(s, open, tokens[p.next])
    decreases Extent(tokens), |tokens| - i, Rank(s) - 1, 3
  {
    var left, right := OnceRead(s, text, tokens, i);
    open := ParseSound(Next(s), text, tokens, i);
    assert DerivesAny(Next(s), text, tokens, i, left.next, left.node);
    if right.Some? {
      open := ParseSound(Right(s), text, tokens, left.next + 1);
      SplitSound(s, text, tokens, i, left.next, right.value.next, Infix(tokens[left.next], left, right.value).node, open);
      RightEnds(s, open, tokens[right.value.next]);
    } else if s.Comparison? {
      open := true;
    }
  }

  lemma {:induction false} SplitSound(s: Symbol, text: string, tokens: seq<Token>, i: nat, k: nat, j: nat, n: Node, open: bool)
    requires i < k < j < |tokens| && n.Binary? && SplitToken(s, tokens[k]) && (s.Pipe? || s.Alternative? || s.Comparison?)
    requires n.position == tokens[k].position && n.operator == tokens[k].text
    requires DerivesAny(Next(s), text, tokens, i, k, n.left) && Derives(Right(s), text, tokens, k + 1, j, n.right, open)
    ensures Derives(s, text, tokens, i, j, n, open)
  {
    assert DerivesSplit(s, text, tokens, i, k, j, n, open);
  }

  /** What does not extend a right operand does not extend the whole. */
  lemma RightEnds(s: Symbol, open: bool, t: Token)
    requires (s.Pipe? || s.Alternative? || s.Comparison?) && !Extends(Right(s), open, t)
    ensures !Extends(s, open, t)
  {
  }

  lemma {:induction false} ChainSound(level: Level, text: string, tokens: seq<Token>, i: nat, left: Parsed, leftOpen: bool)
    returns (open: bool)
    requires WellLexed(text, tokens) && i < left.next < |tokens| && ParseChain(level, text, tokens, left).Some?
    requires Derives(Chain(level), text, tokens, i, left.next, left.node, leftOpen)
    requires !Extends(Operand(level), leftOpen, tokens[left.next])
    ensures var p := ParseChain(level, text, tokens, left).value;
            Derives(Chain(level), text, tokens, i, p.next, p.node, open) && !Extends(Chain(level), open, tokens[p.next])
    decreases Extent(tokens), |tokens| - left.next, Rank(Chain(level)), 0
  {
    var t := tokens[left.next];
    open := leftOpen;
    if ChainToken(level, t) {
      open := ParseSound(Operand(level), text, tokens, left.next + 1);
      var more := Infix(t, left, Parse(Operand(level), text, tokens, left.next + 1).value);
      ChainStep(level, text, tokens, i, left, leftOpen, more, open);
      open := ChainSound(level, text, tokens, i, more, open);
    }
  }

  lemma {:induction false} ChainStep(level: Level, text: string, tokens: seq<Token>, i: nat, left: Parsed, leftOpen: bool,
                                     more: Parsed, open: bool)
    requires i < left.next < more.next < |tokens| && more.node.Binary? && more.node.left == left.node
    requires ChainToken(level, tokens[left.next])
    requires more.node.position == tokens[left.next].position && more.node.operator == tokens[left.next].text
    requires Derives(Chain(level), text, tokens, i, left.next, left.node, leftOpen)
    requires Derives(Operand(level), text, tokens, left.next + 1, more.next, more.node.right, open)
    ensures Derives(Chain(level), text, tokens, i, more.next, more.node, open)
  {
    assert DerivesAny(Chain(level), text, tokens, i, left.next, left.node);
    assert DerivesSplit(Chain(level), text, tokens, i, left.next, more.next, more.node, open);
  }

  lemma {:induction false} UnarySound(text: string, tokens: seq<Token>, i: nat) returns (open: bool)
    requires WellLexed(text, tokens) && i < |tokens| && Parse(Unary, text, tokens, i).Some?
    ensures var p := Parse(Unary, text, tokens, i).value;
            Derives(Unary, text, tokens, i, p.next, p.node, open) && !Extends(Unary, open, tokens[p.next])
    decreases Extent(tokens), |tokens| - i, 12, 1
  {
    if Op(tokens, i, "-") {
      open := ParseSound(Unary, text, tokens, i + 1);
    } else if Keyword(tokens, i, "try") {
      open := TrySound(text, tokens, i);
    } else {
      open := ParseSound(Postfix, text, tokens, i);
    }
  }

  lemma {:induction false} TrySound(text: string, tokens: seq<Token>, i: nat) returns (open: bool)
    requires WellLexed(text, tokens) && i < |tokens| && Keyword(tokens, i, "try") && Parse(Unary, text, tokens, i).Some?
    ensures var p := Parse(Unary, text, tokens, i).value;
            Derives(Unary, text, tokens, i, p.next, p.node, open) && !Extends(Unary, open, tokens[p.next])
    decreases Extent(tokens), |tokens| - i, 12, 0
  {
    var p := Parse(Unary, text, tokens, i).value;
    var bodyOpen := ParseSound(Unary, text, tokens, i + 1);
    var body := Parse(Unary, text, tokens, i + 1).value;
    if Keyword(tokens, body.next, "catch") {
      open := ParseSound(Unary, text, tokens, body.next + 1);
      CatchSound(text, tokens, i, body.next, p.next, p.node, bodyOpen, open);
    } else {
      open := bodyOpen;
      assert DerivesTry(text, tokens, i + 1, p.next, p.node, open);
    }
  }

  lemma {:induction false} CatchSound(text: string, tokens: seq<Token>, i: nat, k: nat, j: nat, n: Node, bodyOpen: bool, open: bool)
    requires i + 1 < k && k + 1 < j < |tokens| && n.Try? && n.handler.Some? && n.position == tokens[i].position
    requires Keyword(tokens, i, "try") && Keyword(tokens, k, "catch")
    requires Derives(Unary, text, tokens, i + 1, k, n.body, bodyOpen)
    requires Derives(Unary, text, tokens, k + 1, j, n.handler.value, open)
    ensures Derives(Unary, text, tokens, i, j, n, open)
  {
    assert DerivesAny(Unary, text, tokens, i + 1, k, n.body);
    assert DerivesTry(text, tokens, i + 1, j, n, open);
  }

  /** The body of a binding, if there is one. */
  lemma BindRead(text: string, tokens: seq<Token>, i: nat) returns (term: Parsed, body: Option<Parsed>)
    requires WellLexed(text, tokens) && i < |tokens| && Parse(Postfix, text, tokens, i).Some?
    ensures i < term.next < |tokens| && ParseTerm(text, tokens, i) == Some(term)
    ensures body.Some? <==> Keyword(tokens, term.next, "as")
    ensures var p, k := Parse(Postfix, text, tokens, i).value, term.next;
            if body.None? then p == term
            else
              && k + 3 < body.value.next < |tokens| && tokens[k + 1].kind == VARIABLE && Op(tokens, k + 2, "|")
              && Parse(Pipe, text, tokens, k + 3) == body && p.next == body.value.next
              && p.node == Bind(tokens[k].position, term.node, tokens[k + 1].text, body.value.node)
  {
    term := ParseTerm(text, tokens, i).value;
    body := if Keyword(tokens, term.next, "as") then Parse(Pipe, text, tokens, term.next + 3) else None;
  }

  lemma {:induction false} PostfixSound(text: string, tokens: seq<Token>, i: nat) returns (open: bool)
    requires WellLexed(text, tokens) && i < |tokens| && Parse(Postfix, text, tokens, i).Some?
    ensures var p := Parse(Postfix, text, tokens, i).value;
            Derives(Postfix, text, tokens, i, p.next, p.node, open) && !Extends(Postfix, open, tokens[p.next])
    decreases Extent(tokens), |tokens| - i, 11, 0
  {
    var term, body := BindRead(text, tokens, i);
    TermSound(text, tokens, i);
    open := false;
    if body.Some? {
      var k, p := term.next, Parse(Postfix, text, tokens, i).value;
      open := ParseSound(Pipe, text, tokens, k + 3);
      assert DerivesBind(text, tokens, i, k, p.next, p.node, open);
      WiderContinues(Pipe, Postfix, tokens[p.next]);
    }
  }

  lemma {:induction false} TermSound(text: string, tokens: seq<Token>, i: nat)
    requires WellLexed(text, tokens) && i < |tokens| && ParseTerm(text, tokens, i).Some?
    ensures var p := ParseTerm(text, tokens, i).value; DerivesTerm(text, tokens, i, p.next, p.node)
    ensures var t := tokens[ParseTerm(text, tokens, i).value.next]; Continues(Postfix, t) ==> t.kind == IDENT && t.text == "as"
    decreases Extent(tokens), |tokens| - i, 10, 0
  {
    PrimarySound(text, tokens, i);
    var primary := ParsePrimary(text, tokens, i).value;
    SuffixesSound(text, tokens, primary.next);
    assert DerivesPrimary(text, tokens, i, primary.next, primary.node);
  }

  lemma {:induction false} SuffixesSound(text: string, tokens: seq<Token>, i: nat)
    requires WellLexed(text, tokens) && i < |tokens| && ParseSuffixes(text, tokens, i).Some?
    ensures var p := ParseSuffixes(text, tokens, i).value; DerivesSuffixes(text, tokens, i, p.next, p.items)
    ensures var t := tokens[ParseSuffixes(text, tokens, i).value.next]; Continues(Postfix, t) ==> t.kind == IDENT && t.text == "as"
    decreases Extent(tokens), |tokens| - i, 8, 1
  {
    var p := ParseSuffixes(text, tokens, i).value;
    if p.items != [] {
      var k := ParseSuffix(text, tokens, i).value.next;
      SuffixSound(text, tokens, i);
      SuffixesSound(text, tokens, k);
      SuffixStep(text, tokens, i, k, p.next, p.items, ParseSuffixes(text, tokens, k).value.items);
    }
  }

  lemma {:induction false} SuffixSound(text: string, tokens: seq<Token>, i: nat)
    requires WellLexed(text, tokens) && i < |tokens| && SuffixToken(tokens[i]) && ParseSuffix(text, tokens, i).Some?
    ensures var p := ParseSuffix(text, tokens, i).value; DerivesSuffix(text, tokens, i, p.next, p.suffix)
    decreases Extent(tokens), |tokens| - i, 7, 0
  {
    if Op(tokens, i, "[") && !Op(tokens, i + 1, "]") {
      var _ := ParseSound(Pipe, text, tokens, i + 1);
    }
  }

  lemma SuffixStep(text: string, tokens: seq<Token>, i: nat, k: nat, j: nat, all: seq<Suffix>, rest: seq<Suffix>)
    requires i < k <= j < |tokens| && all != [] && all[1..] == rest
    requires DerivesSuffix(text, tokens, i, k, all[0]) && DerivesSuffixes(text, tokens, k, j, rest)
    ensures DerivesSuffixes(text, tokens, i, j, all)
  {
  }

  lemma {:induction false} PrimarySound(text: string, tokens: seq<Token>, i: nat)
    requires WellLexed(text, tokens) && i < |tokens| && ParsePrimary(text, tokens, i).Some?
    ensures var p := ParsePrimary(text, tokens, i).value; DerivesPrimary(text, tokens, i, p.next, p.node)
    decreases Extent(tokens), |tokens| - i, 9, 2
  {
    var t := tokens[i];
    match t.kind
    case STRING => HolesSound(text, tokens, i, t.holes);
    case IDENT =>
      if !KeywordLiteral(t.text) && Op(tokens, i + 1, "(") {
        ArgumentsSound(text, tokens, i + 2);
      }
    case OPERATOR => OperatorTermSound(text, tokens, i);
    case _ =>
  }

  lemma {:induction false} OperatorTermSound(text: string, tokens: seq<Token>, i: nat)
    requires WellLexed(text, tokens) && i < |tokens| && tokens[i].kind == OPERATOR && ParsePrimary(text, tokens, i).Some?
    ensures var p := ParsePrimary(text, tokens, i).value; DerivesPrimary(text, tokens, i, p.next, p.node)
    decreases Extent(tokens), |tokens| - i, 9, 1
  {
    if Op(tokens, i, "(") || (Op(tokens, i, "[") && !Op(tokens, i + 1, "]")) {
      BracketSound(text, tokens, i);
    } else if Op(tokens, i, "{") {
      if !Op(tokens, i + 1, "}") {
        EntriesSound(text, tokens, i + 1);
      }
    }
  }

  /** A pipe between parentheses or square brackets. */
  lemma {:induction false} BracketSound(text: string, tokens: seq<Token>, i: nat)
    requires WellLexed(text, tokens) && i + 1 < |tokens| && ParsePrimary(text, tokens, i).Some?
    requires Op(tokens, i, "(") || (Op(tokens, i, "[") && !Op(tokens, i + 1, "]"))
    ensures var p := ParsePrimary(text, tokens, i).value; DerivesPrimary(text, tokens, i, p.next, p.node)
    decreases Extent(tokens), |tokens| - i, 9, 0
  {
    var _ := ParseSound(Pipe, text, tokens, i + 1);
    var inner := Parse(Pipe, text, tokens, i + 1).value;
    assert DerivesAny(Pipe, text, tokens, i + 1, inner.next, inner.node);
  }

  /** The first argument, and what is parsed after it if there is more. */
  lemma ArgumentsRead(text: string, tokens: seq<Token>, i: nat) returns (head: Parsed, rest: Option<Listed<Node>>)
    requires WellLexed(text, tokens) && i < |tokens| && ParseArguments(text, tokens, i).Some?
    ensures i < head.next < |tokens|
    ensures Parse(Pipe, text, tokens, i) == Some(head) && (rest.Some? <==> Op(tokens, head.next, ";"))
    ensures var p := ParseArguments(text, tokens, i).value;
            if rest.None? then p.items == [head.node] && p.next == head.next
            else head.next + 1 < rest.value.next < |tokens| && ParseArguments(text, tokens, head.next + 1) == rest
                 && p.items == [head.node] + rest.value.items && p.next == rest.value.next
  {
    head := Parse(Pipe, text, tokens, i).value;
    rest := if Op(tokens, head.next, ";") then ParseArguments(text, tokens, head.next + 1) else None;
  }

  lemma {:induction false} ArgumentsSound(text: string, tokens: seq<Token>, i: nat)
    requires WellLexed(text, tokens) && i < |tokens| && ParseArguments(text, tokens, i).Some?
    ensures var p := ParseArguments(text, tokens, i).value; DerivesArguments(text, tokens, i, p.next, p.items)
    decreases Extent(tokens), |tokens| - i, 21, 0
  {
    var head, rest := ArgumentsRead(text, tokens, i);
    var _ := ParseSound(Pipe, text, tokens, i);
    assert DerivesAny(Pipe, text, tokens, i, head.next, head.node);
    if rest.Some? {
      ArgumentsSound(text, tokens, head.next + 1);
      MoreArguments(text, tokens, i, head.next, rest.value.next, head.node, rest.value.items);
    }
  }

  lemma {:induction false} MoreArguments(text: string, tokens: seq<Token>, i: nat, k: nat, j: nat, head: Node, rest: seq<Node>)
    requires i < k && k + 1 <= j < |tokens| && Op(tokens, k, ";")
    requires DerivesAny(Pipe, text, tokens, i, k, head) && DerivesArguments(text, tokens, k + 1, j, rest)
    ensures DerivesArguments(text, tokens, i, j, [head] + rest)
  {
    assert ([head] + rest)[1..] == rest;
  }

  /** The first value, and what is parsed after it if there is more. */
  lemma EntriesRead(text: string, tokens: seq<Token>, i: nat) returns (head: Parsed, rest: Option<Listed<Node>>)
    requires WellLexed(text, tokens) && i < |tokens| && ParseEntries(text, tokens, i).Some?
    ensures i + 2 < head.next < |tokens| && StaticKey(tokens[i]) && Op(tokens, i + 1, ":")
    ensures Parse(Alternative, text, tokens, i + 2) == Some(head) && (rest.Some? <==> Op(tokens, head.next, ","))
    ensures var p := ParseEntries(text, tokens, i).value;
            if rest.None? then p.items == [head.node] && p.next == head.next
            else head.next + 1 < rest.value.next < |tokens| && ParseEntries(text, tokens, head.next + 1) == rest
                 && p.items == [head.node] + rest.value.items && p.next == rest.value.next
  {
    head := Parse(Alternative, text, tokens, i + 2).value;
    rest := if Op(tokens, head.next, ",") then ParseEntries(text, tokens, head.next + 1) else None;
  }

  lemma {:induction false} EntriesSound(text: string, tokens: seq<Token>, i: nat)
    requires WellLexed(text, tokens) && i < |tokens| && ParseEntries(text, tokens, i).Some?
    ensures var p := ParseEntries(text, tokens, i).value; DerivesEntries(text, tokens, i, p.next, p.items)
    decreases Extent(tokens), |tokens| - i, 21, 0
  {
    var head, rest := EntriesRead(text, tokens, i);
    var _ := ParseSound(Alternative, text, tokens, i + 2);
    assert DerivesAny(Alternative, text, tokens, i + 2, head.next, head.node);
    if rest.Some? {
      EntriesSound(text, tokens, head.next + 1);
      MoreEntries(text, tokens, i, head.next, rest.value.next, head.node, rest.value.items);
    } else {
      LastEntry(text, tokens, i, head.next, head.node);
    }
  }

  lemma LastEntry(text: string, tokens: seq<Token>, i: nat, j: nat, value: Node)
    requires i + 2 < j < |tokens| && StaticKey(tokens[i]) && Op(tokens, i + 1, ":")
    requires DerivesAny(Alternative, text, tokens, i + 2, j, value)
    ensures DerivesEntries(text, tokens, i, j, [value])
  {
  }

  lemma {:induction false} MoreEntries(text: string, tokens: seq<Token>, i: nat, k: nat, j: nat, head: Node, rest: seq<Node>)
    requires i + 2 < k && k + 1 <= j < |tokens| && StaticKey(tokens[i]) && Op(tokens, i + 1, ":") && Op(tokens, k, ",")
    requires DerivesAny(Alternative, text, tokens, i + 2, k, head) && DerivesEntries(text, tokens, k + 1, j, rest)
    ensures DerivesEntries(text, tokens, i, j, [head] + rest)
  {
    assert ([head] + rest)[1..] == rest;
  }

  lemma {:induction false} HolesSound(text: string, tokens: seq<Token>, i: nat, holes: seq<Hole>)
    requires WellLexed(text, tokens) && i < |tokens| - 1
    requires forall h :: h in holes ==> h in tokens[i].holes
    requires ParseHoles(text, tokens, i, holes).Some?
    ensures DerivesHoles(text, holes, ParseHoles(text, tokens, i, holes).value.items)
    decreases Extent(tokens), |tokens| - i, 7, |holes|
  {
    if holes != [] {
      var h, all := holes[0], ParseHoles(text, tokens, i, holes).value.items;
      HoleInside(text, tokens, i, h);
      InterpolationSound(text, h);
      HolesSound(text, tokens, i, holes[1..]);
      assert all[1..] == ParseHoles(text, tokens, i, holes[1..]).value.items;
    }
  }

  lemma InterpolationRead(text: string, h: Hole)
    requires ScannedHole(text, h) && ParseInterpolation(text, h).Some?
    ensures var tokens := HoleTokens(text, h);
            && tokens != [] && WellLexed(text, tokens) && Parse(Pipe, text, tokens, 0).Some?
            && var body := Parse(Pipe, text, tokens, 0).value;
               body.next == |tokens| - 1 && body.node == ParseInterpolation(text, h).value.node
  {
    HoleWellLexed(text, h);
  }

  lemma {:induction false} InterpolationSound(text: string, h: Hole)
    requires ScannedHole(text, h) && ParseInterpolation(text, h).Some?
    ensures DerivesHole(text, h, ParseInterpolation(text, h).value.node)
    decreases h.end - h.start + 1, 0, 0, 0
  {
    InterpolationRead(text, h);
    HoleWellLexed(text, h);
    var _ := ParseSound(Pipe, text, HoleTokens(text, h), 0);
  }

  /** A token that continues a tighter construct continues every looser one. */
  lemma {:induction false} WiderContinues(wide: Symbol, tight: Symbol, t: Token)
    requires Rank(tight) <= Rank(wide)
    ensures Continues(tight, t) ==> Continues(wide, t)
    decreases Rank(wide)
  {
    if Rank(tight) < Rank(wide) {
      WiderContinues(Next(wide), tight, t);
    }
  }
}
