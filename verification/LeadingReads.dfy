/** What the gate makes of a condition that begins by reading the context, from the text of it. */
module LeadingReads {
  import opened Wrappers
  import opened ConditionAst
  import opened Lexical
  import opened ScannerAgreement
  import opened TokenTexts
  import opened Grammar
  import opened TaintAnalysis
  import opened Lexer
  import opened Parser
  import opened TokenFree

  /** The term a tree begins with: the left operand, or the source of a binding, as far down as it goes. */
  function Leftmost(n: Node): Node {
    match n
    case Binary(_, _, left, _) => Leftmost(left)
    case Bind(_, source, _, _) => Leftmost(source)
    case _ => n
  }

  /** What is refused where a condition begins is refused with all that follows. */
  lemma {:induction false} LeftmostRefused(n: Node, scope: Scope)
    requires TaintOf(Leftmost(n), scope).Refused?
    ensures TaintOf(n, scope).Refused?
  {
    match n
    case Binary(_, _, left, _) => LeftmostRefused(left, scope);
    case Bind(_, source, _, _) => LeftmostRefused(source, scope);
    case _ =>
  }

  lemma {:induction false} ChainLeftmost(level: Level, text: string, tokens: seq<Token>, left: Parsed)
    requires WellLexed(text, tokens) && left.next < |tokens| && ParseChain(level, text, tokens, left).Some?
    ensures Leftmost(ParseChain(level, text, tokens, left).value.node) == Leftmost(left.node)
    decreases |tokens| - left.next
  {
    if ChainToken(level, tokens[left.next]) {
      var right := Parse(Operand(level), text, tokens, left.next + 1).value;
      ChainLeftmost(level, text, tokens, Infix(tokens[left.next], left, right));
    }
  }

  /** A parse that begins at a field begins with the term there. */
  lemma {:induction false} FieldFirst(s: Symbol, text: string, tokens: seq<Token>, i: nat)
    requires WellLexed(text, tokens) && i < |tokens| && tokens[i].kind == FIELD && Parse(s, text, tokens, i).Some?
    ensures ParseTerm(text, tokens, i).Some?
    ensures Leftmost(Parse(s, text, tokens, i).value.node) == ParseTerm(text, tokens, i).value.node
    decreases Rank(s)
  {
    match s
    case Postfix =>
    case Unary => FieldFirst(Postfix, text, tokens, i);
    case Chain(level) =>
      FieldFirst(Operand(level), text, tokens, i);
      ChainLeftmost(level, text, tokens, Parse(Operand(level), text, tokens, i).value);
    case _ => FieldFirst(Next(s), text, tokens, i);
  }

  lemma FieldSuffix(text: string, tokens: seq<Token>, i: nat)
    requires WellLexed(text, tokens) && i < |tokens| && tokens[i].kind == FIELD
    ensures i + 1 < |tokens|
    ensures ParseSuffixes(text, tokens, i) ==
              PrependSuffix(ParsedSuffix(Suffix.Field(tokens[i].position, tokens[i].text), i + 1, 0, 0),
                            ParseSuffixes(text, tokens, i + 1))
  {
    assert ParseSuffix(text, tokens, i).value.next == i + 1;
  }

  /** Two fields in a row are the first two suffixes of the context. */
  lemma TwoFields(text: string, tokens: seq<Token>)
    requires WellLexed(text, tokens) && |tokens| > 2 && tokens[0].kind == FIELD && tokens[1].kind == FIELD
    requires ParseTerm(text, tokens, 0).Some?
    ensures var n := ParseTerm(text, tokens, 0).value.node;
            && n.Projection? && n.source == Root(tokens[0].position) && |n.suffixes| >= 2
            && n.suffixes[0] == Suffix.Field(tokens[0].position, tokens[0].text)
            && n.suffixes[1] == Suffix.Field(tokens[1].position, tokens[1].text)
  {
    assert ParsePrimary(text, tokens, 0) == Some(Parsed(Root(tokens[0].position), 0, 0, 0));
    FieldSuffix(text, tokens, 0);
    FieldSuffix(text, tokens, 1);
  }

  // From the text.

  lemma LeadingTokens(text: string, first: string, second: string)
    requires FieldAt(text, 0, first) && FieldAt(text, 1 + |first|, second) && LexFrom(text, 0, |text|).Some?
    ensures var tokens := LexFrom(text, 0, |text|).value.tokens;
            && |tokens| > 2
            && tokens[0] == Token(FIELD, first, 0, []) && tokens[1] == Token(FIELD, second, 1 + |first|, [])
  {
    FieldLexed(text, 0, first);
    FieldLexed(text, 1 + |first|, second);
  }

  /** A condition that begins `.first.second` has a tree that begins by projecting the context so. */
  lemma LeadingFields(text: string, first: string, second: string, n: Node)
    requires FieldAt(text, 0, first) && FieldAt(text, 1 + |first|, second) && Means(text, n)
    ensures var m := Leftmost(n);
            && m.Projection? && m.source == Root(0) && |m.suffixes| >= 2
            && m.suffixes[0] == Suffix.Field(0, first) && m.suffixes[1] == Suffix.Field(1 + |first|, second)
  {
    var tokens := LexFrom(text, 0, |text|).value.tokens;
    LeadingTokens(text, first, second);
    ParseIsMeaning(text, n);
    FieldFirst(Pipe, text, tokens, 0);
    TwoFields(text, tokens);
  }

  lemma ClaimTerm(m: Node, claim: string)
    requires m.Projection? && m.source.Root? && |m.suffixes| >= 2
    requires m.suffixes[0] == Suffix.Field(0, "identity") && m.suffixes[1] == Suffix.Field(9, claim)
    requires TaintOf(m, Scope(ROOT, map[])).Ok?
    ensures claim == "owner_user_id" && |m.suffixes| == 2
  {
    assert TaintOf(m, Scope(ROOT, map[])) == SuffixTaint(ROOT, m.suffixes, Scope(ROOT, map[]));
  }

  /** Whatever follows, a condition that begins by reading a claim is refused, unless it reads the owner reference and
    * nothing past it. */
  lemma LeadingClaimReads(text: string, claim: string, n: Node)
    requires FieldAt(text, 0, "identity") && FieldAt(text, 9, claim) && Means(text, n) && AssertSafe(n)
    ensures claim == "owner_user_id"
    ensures Leftmost(n).Projection? && Leftmost(n).source == Root(0)
    ensures Leftmost(n).suffixes == [Suffix.Field(0, "identity"), Suffix.Field(9, "owner_user_id")]
  {
    LeadingFields(text, "identity", claim, n);
    if TaintOf(Leftmost(n), Scope(ROOT, map[])).Refused? {
      LeftmostRefused(n, Scope(ROOT, map[]));
    }
    ClaimTerm(Leftmost(n), claim);
  }

  /** A condition that begins `.first` has a tree that begins by projecting the context by that name. */
  lemma LeadingField(text: string, first: string, n: Node)
    requires FieldAt(text, 0, first) && Means(text, n)
    ensures var m := Leftmost(n);
            m.Projection? && m.source == Root(0) && m.suffixes != [] && m.suffixes[0] == Suffix.Field(0, first)
  {
    var tokens := LexFrom(text, 0, |text|).value.tokens;
    FieldLexed(text, 0, first);
    ParseIsMeaning(text, n);
    assert tokens[0] == Token(FIELD, first, 0, []);
    FieldFirst(Pipe, text, tokens, 0);
    assert ParsePrimary(text, tokens, 0) == Some(Parsed(Root(0), 0, 0, 0));
    FieldSuffix(text, tokens, 0);
  }

  /** However the claim is spelled, and whatever follows: what is accepted of the conditions that begin `.identity` begins
    * with the owner reference, taken no further. */
  lemma LeadingIdentityReads(text: string, n: Node)
    requires FieldAt(text, 0, "identity") && Means(text, n) && AssertSafe(n)
    ensures var m := Leftmost(n);
            && m.Projection? && m.source == Root(0) && |m.suffixes| == 2
            && m.suffixes[0] == Suffix.Field(0, "identity") && StaticName(m.suffixes[1]) == Some("owner_user_id")
  {
    LeadingField(text, "identity", n);
    var m, scope := Leftmost(n), Scope(ROOT, map[]);
    if TaintOf(m, scope).Refused? {
      LeftmostRefused(n, scope);
    }
    assert TaintOf(m, scope) == SuffixTaint(ROOT, m.suffixes, scope);
  }

  lemma LeadingClaimReadsRefused(text: string, claim: string)
    requires FieldAt(text, 0, "identity") && FieldAt(text, 9, claim) && claim != "owner_user_id"
    ensures !Evaluable(text)
  {
    if n :| Means(text, n) && AssertSafe(n) {
      LeadingClaimReads(text, claim, n);
    }
  }

  // Conditions that are such a read and nothing else.

  /** The levels a term alone is nested in, at each level of precedence. */
  function Levels(s: Symbol): nat {
    match s
    case Postfix => 0
    case Unary | Chain(MULTIPLICATIVE) | Chain(ADDITIVE) | Comparison | Chain(AND) | Chain(OR) => 1
    case Alternative | Chain(COMMA) => 2
    case Pipe => 3
  }

  lemma {:induction false} TermAlone(s: Symbol, text: string, tokens: seq<Token>)
    requires WellLexed(text, tokens) && tokens[0].kind == FIELD && ParseTerm(text, tokens, 0).Some?
    requires tokens[ParseTerm(text, tokens, 0).value.next].kind == END
    ensures var p := ParseTerm(text, tokens, 0).value;
            Parse(s, text, tokens, 0) == Some(p.(nest := p.nest + Levels(s)))
    decreases Rank(s)
  {
    match s
    case Postfix =>
    case Unary => TermAlone(Postfix, text, tokens);
    case Chain(level) => TermAlone(Operand(level), text, tokens);
    case _ => TermAlone(Next(s), text, tokens);
  }

  lemma TwoFieldTerm(text: string, tokens: seq<Token>)
    requires WellLexed(text, tokens) && |tokens| == 3 && tokens[0].kind == FIELD && tokens[1].kind == FIELD
    ensures ParseTerm(text, tokens, 0) ==
              Some(Parsed(Projection(tokens[0].position, Root(tokens[0].position),
                                     [Suffix.Field(tokens[0].position, tokens[0].text),
                                      Suffix.Field(tokens[1].position, tokens[1].text)]), 2, 0, 0))
  {
    FieldSuffix(text, tokens, 0);
    FieldSuffix(text, tokens, 1);
    var f, g := Suffix.Field(tokens[0].position, tokens[0].text), Suffix.Field(tokens[1].position, tokens[1].text);
    assert ParseSuffixes(text, tokens, 2) == Some(Listed([], 2, 0, 0));
    assert [g] + [] == [g] && [f] + [g] == [f, g];
    assert ParseSuffixes(text, tokens, 1) == Some(Listed([g], 2, 0, 0));
    assert ParseSuffixes(text, tokens, 0) == Some(Listed([f, g], 2, 0, 0));
    assert ParsePrimary(text, tokens, 0) == Some(Parsed(Root(tokens[0].position), 0, 0, 0));
  }

  function TwoFieldText(first: string, second: string): string {
    "." + first + "." + second
  }

  function TwoFieldTree(first: string, second: string): Node {
    Projection(0, Root(0), [Suffix.Field(0, first), Suffix.Field(1 + |first|, second)])
  }

  lemma TwoFieldsSpelled(first: string, second: string)
    requires Name(first) && Name(second)
    ensures var text := TwoFieldText(first, second);
            |text| == 2 + |first| + |second| && FieldAt(text, 0, first) && FieldAt(text, 1 + |first|, second)
  {
    var text, middle := TwoFieldText(first, second), 1 + |first|;
    assert text[1..middle] == first && text[middle + 1..|text|] == second && text[middle] == '.';
    HeadsDiffer('.');
  }

  function TwoFieldTokens(text: string, first: string, second: string): seq<Token> {
    [Token(FIELD, first, 0, []), Token(FIELD, second, 1 + |first|, []), Token(END, "", |text|, [])]
  }

  lemma TwoFieldsSaid(text: string, first: string, second: string)
    requires |text| == 2 + |first| + |second| && FieldAt(text, 0, first) && FieldAt(text, 1 + |first|, second)
    ensures SaysAll(text, 0, |text|, Lexed(TwoFieldTokens(text, first, second), [1 + |first|, |text|, |text|], 0))
  {
    var l := Lexed(TwoFieldTokens(text, first, second), [1 + |first|, |text|, |text|], 0);
    FieldReads(text, 0, first);
    FieldReads(text, 1 + |first|, second);
    assert TileAt(text, 0, |text|, l, 0) && TileAt(text, 0, |text|, l, 1) && TileAt(text, 0, |text|, l, 2);
  }

  lemma TwoFieldLexed(text: string, first: string, second: string)
    requires |text| == 2 + |first| + |second| && FieldAt(text, 0, first) && FieldAt(text, 1 + |first|, second)
    ensures LexFrom(text, 0, |text|).Some? && LexFrom(text, 0, |text|).value.tokens == TwoFieldTokens(text, first, second)
  {
    TwoFieldsSaid(text, first, second);
    SaidIsLexed(text, 0, |text|, Lexed(TwoFieldTokens(text, first, second), [1 + |first|, |text|, |text|], 0));
  }

  lemma NamesPrint(s: string)
    requires NameChars(s)
    ensures SourceShape(s) && '"' !in s
  {
    AllCharactersAgree();
  }

  lemma TwoFieldMeans(first: string, second: string)
    requires Name(first) && Name(second)
    ensures Means(TwoFieldText(first, second), TwoFieldTree(first, second)) && WithinBudget(TwoFieldText(first, second))
  {
    var text, n := TwoFieldText(first, second), TwoFieldTree(first, second);
    TwoFieldsSpelled(first, second);
    TwoFieldLexed(text, first, second);
    NamesPrint(first);
    NamesPrint(second);
    assert SourceShape(text) && '"' !in text;
    UnquotedNestsNothing(text, 0);
    var tokens := LexFrom(text, 0, |text|).value.tokens;
    ParseIsMeaning(text, n);
    TwoFieldTerm(text, tokens);
    TermAlone(Pipe, text, tokens);
  }

  /** A condition that reads a field of a field of the context stands for that read, and is accepted exactly when it
    * reads no claim but the owner. */
  lemma TwoFieldConditions(first: string, second: string)
    requires Name(first) && Name(second)
    ensures Means(TwoFieldText(first, second), TwoFieldTree(first, second))
    ensures Evaluable(TwoFieldText(first, second)) <==> first != "identity" || second == "owner_user_id"
  {
    TwoFieldMeans(first, second);
    TwoFieldTaint(first, second);
    if Evaluable(TwoFieldText(first, second)) {
      var m :| Means(TwoFieldText(first, second), m) && AssertSafe(m);
      MeaningUnique(TwoFieldText(first, second), TwoFieldTree(first, second), m);
    }
  }

  lemma TwoFieldTaint(first: string, second: string)
    ensures AssertSafe(TwoFieldTree(first, second)) <==> first != "identity" || second == "owner_user_id"
  {
    var n, scope := TwoFieldTree(first, second), Scope(ROOT, map[]);
    assert n.suffixes[1..] == [n.suffixes[1]] && n.suffixes[1..][1..] == [];
    assert SuffixTaint(SAFE, [], scope) == Ok(SAFE);
    assert SuffixTaint(SAFE, n.suffixes[1..], scope) == Ok(SAFE);
    assert TaintOf(n, scope) == SuffixTaint(ROOT, n.suffixes, scope);
  }
}
