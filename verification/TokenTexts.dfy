/** What the characters of a token say: its text, read off the stretch it covers. */
module TokenTexts {
  import opened Wrappers
  import opened Lexical
  import opened ScannerAgreement

  const ESCAPES: map<char, char> :=
    map['"' := '"', '\\' := '\\', '/' := '/', 'b' := '\U{8}', 'f' := '\U{C}', 'n' := '\n', 'r' := '\r', 't' := '\t']

  const OPERATORS: set<string> :=
    {"?//", "//=", "|=", "+=", "-=", "*=", "/=", "%=", "==", "!=", "<=", ">=", "//", "..", "=", "<", ">", "|", ",", "+",
     "-", "*", "/", "%", "(", ")", "[", "]", "{", "}", ":", ";", "?", "."}

  predicate IsOperator(o: string) { o in OPERATORS }

  predicate Digit(c: char) { '0' <= c <= '9' }

  predicate NameStart(c: char) { 'a' <= c <= 'z' || 'A' <= c <= 'Z' || c == '_' }

  predicate NameChar(c: char) { NameStart(c) || Digit(c) }

  predicate NameChars(s: string) {
    forall k :: 0 <= k < |s| ==> NameChar(s[k])
  }

  predicate Name(s: string) {
    s != "" && NameStart(s[0]) && NameChars(s)
  }

  // Literals.

  /** `text[i..end]`, between the quotes of a literal, stands for `value` with `holes` in it. */
  ghost predicate Decodes(text: string, i: nat, end: nat, value: string, holes: seq<Hole>)
    requires i <= end <= |text|
    decreases end - i, 0
  {
    if i == end then value == "" && holes == []
    else if text[i] == '"' then false
    else if text[i] != '\\' then value != "" && value[0] == text[i] && Decodes(text, i + 1, end, value[1..], holes)
    else if i + 1 == end then false
    else if text[i + 1] == '(' then
      && holes != [] && holes[0].start == i + 2 <= holes[0].end < end
      && Encloses(text, i + 2, holes[0].end, 1) && Decodes(text, holes[0].end + 1, end, value, holes[1..])
    else
      && text[i + 1] in ESCAPES && value != "" && value[0] == ESCAPES[text[i + 1]]
      && Decodes(text, i + 2, end, value[1..], holes)
  }

  /** A literal opens at `i` and its closing quote is just before `end`. */
  ghost predicate Quotes(text: string, i: nat, end: nat, value: string, holes: seq<Hole>)
    requires end <= |text|
    decreases if i <= end then end - i else 0, 0
  {
    i + 1 < end && text[i] == text[end - 1] == '"' && Decodes(text, i + 1, end - 1, value, holes)
  }

  /** With `depth` parentheses open at `i`, the one at `end` closes the first; literals in between count for nothing. */
  ghost predicate Encloses(text: string, i: nat, end: nat, depth: nat)
    requires i <= end < |text|
    decreases end - i, 1
  {
    if i == end then text[i] == ')' && depth == 1
    else if text[i] == '"' then
      exists k: nat, value, holes | i < k <= end :: Quotes(text, i, k, value, holes) && Encloses(text, k, end, depth)
    else if text[i] == '(' then Encloses(text, i + 1, end, depth + 1)
    else if text[i] == ')' then depth > 1 && Encloses(text, i + 1, end, depth - 1)
    else Encloses(text, i + 1, end, depth)
  }

  // Tokens.

  /** The stretch `text[t.position..end]` is a token of this kind and says this text. */
  ghost predicate Says(text: string, t: Token, end: nat) {
    && t.position < end <= |text|
    && var stretch := text[t.position..end];
       match t.kind
       case FIELD =>
         || (t.holes == [] && Name(t.text) && stretch == "." + t.text)
         || (t.holes == [] && text[t.position] == '.' && Quotes(text, t.position + 1, end, t.text, []))
       case VARIABLE => t.holes == [] && t.text != "" && NameChars(t.text) && stretch == "$" + t.text
       case FORMAT => t.holes == [] && stretch == t.text && stretch[0] == '@' && NameChars(stretch[1..])
       case IDENT => t.holes == [] && stretch == t.text && Name(t.text)
       case NUMBER => t.holes == [] && stretch == t.text && Numeral(text, t.position, end)
       case OPERATOR => t.holes == [] && stretch == t.text && IsOperator(t.text)
       case STRING => Quotes(text, t.position, end, t.text, t.holes)
       case END => false
  }

  /** A name or a quoted one follows. */
  predicate Opens(text: string, i: nat, stop: nat) {
    i + 1 < stop <= |text| && (NameStart(text[i + 1]) || text[i + 1] == '"')
  }

  /** It could be no longer, within the span that ends at `stop`, and a dot before a name or a quote is no operator. */
  ghost predicate Longest(text: string, t: Token, end: nat, stop: nat)
    requires t.position < end <= |text| && stop <= |text|
  {
    match t.kind
    case STRING | END => true
    case FIELD => t.position + 1 < stop && (text[t.position + 1] != '"' ==> end <= stop && (end < stop ==> !NameChar(text[end])))
    case NUMBER => end <= stop && forall longer: nat :: longer <= stop && Numeral(text, t.position, longer) ==> longer <= end
    case OPERATOR =>
      && !(text[t.position] == '.' && Opens(text, t.position, stop))
      && forall o :: IsOperator(o) && StartsAt(text, t.position, o) ==> |o| <= |t.text|
    case _ => end <= stop && (end < stop ==> !NameChar(text[end]))
  }

  /** `text` holds the token `t` up to `end`, as read in a span that ends at `stop`. */
  ghost predicate Reads(text: string, t: Token, end: nat, stop: nat) {
    stop <= |text| && Says(text, t, end) && Longest(text, t, end, stop)
  }

  // The scan of a literal finds just what the characters say.

  lemma {:induction false} EscapesAgree(c: char)
    ensures Escape(c) == if c in ESCAPES then Some(ESCAPES[c]) else None
  {
  }

  lemma {:induction false} ScanDecodes(text: string, i: nat)
    requires i <= |text| && ScanString(text, i).Some?
    ensures var l := ScanString(text, i).value;
            text[l.next - 1] == '"' && Decodes(text, i, l.next - 1, l.value, l.holes)
    decreases |text| - i, 0
  {
    if text[i] == '"' {
    } else if text[i] != '\\' {
      ScanDecodes(text, i + 1);
    } else if text[i + 1] == '(' {
      ScanEncloses(text, i + 2, 1);
      ScanDecodes(text, ScanHole(text, i + 2, 1).value.end + 1);
    } else {
      EscapesAgree(text[i + 1]);
      ScanDecodes(text, i + 2);
    }
  }

  lemma {:induction false} ScanEncloses(text: string, i: nat, depth: nat)
    requires i <= |text| && depth > 0 && ScanHole(text, i, depth).Some?
    ensures Encloses(text, i, ScanHole(text, i, depth).value.end, depth)
    decreases |text| - i, 1
  {
    if text[i] == '"' {
      ScanDecodes(text, i + 1);
      var l, end := ScanString(text, i + 1).value, ScanHole(text, i, depth).value.end;
      ScanEncloses(text, l.next, depth);
      assert Quotes(text, i, l.next, l.value, l.holes) && Encloses(text, l.next, end, depth);
    } else if text[i] == '(' {
      ScanEncloses(text, i + 1, depth + 1);
    } else if text[i] != ')' {
      ScanEncloses(text, i + 1, depth);
    } else if depth > 1 {
      ScanEncloses(text, i + 1, depth - 1);
    }
  }

  lemma {:induction false} DecodesScans(text: string, i: nat, end: nat, value: string, holes: seq<Hole>)
    requires i <= end < |text| && text[end] == '"' && Decodes(text, i, end, value, holes)
    ensures ScanString(text, i).Some?
    ensures var l := ScanString(text, i).value; l.value == value && l.holes == holes && l.next == end + 1
    decreases end - i, 0
  {
    if i == end {
    } else if text[i] != '\\' {
      DecodesScans(text, i + 1, end, value[1..], holes);
      assert value == [value[0]] + value[1..];
    } else if text[i + 1] == '(' {
      EnclosesScans(text, i + 2, holes[0].end, 1);
      DecodesScans(text, holes[0].end + 1, end, value, holes[1..]);
      assert holes == [holes[0]] + holes[1..];
    } else {
      EscapesAgree(text[i + 1]);
      DecodesScans(text, i + 2, end, value[1..], holes);
      assert value == [value[0]] + value[1..];
    }
  }

  lemma {:induction false} EnclosesScans(text: string, i: nat, end: nat, depth: nat)
    requires i <= end < |text| && depth > 0 && Encloses(text, i, end, depth)
    ensures ScanHole(text, i, depth).Some? && ScanHole(text, i, depth).value.end == end
    decreases end - i, 1
  {
    if i == end {
    } else if text[i] == '"' {
      var k: nat, value, holes :| i < k <= end && Quotes(text, i, k, value, holes) && Encloses(text, k, end, depth);
      DecodesScans(text, i + 1, k - 1, value, holes);
      EnclosesScans(text, k, end, depth);
    } else if text[i] == '(' {
      EnclosesScans(text, i + 1, end, depth + 1);
    } else if text[i] == ')' {
      EnclosesScans(text, i + 1, end, depth - 1);
    } else {
      EnclosesScans(text, i + 1, end, depth);
    }
  }

  /** The literal that the scan reads at a quote is the one the characters spell, and there is no other. */
  lemma LiteralIsSpelled(text: string, i: nat, l: Literal)
    requires i < |text| && text[i] == '"'
    ensures ScanString(text, i + 1).Some? && ScanString(text, i + 1).value.(nest := 0) == l.(nest := 0) <==>
              i < l.next <= |text| && Quotes(text, i, l.next, l.value, l.holes)
  {
    if ScanString(text, i + 1).Some? {
      ScanDecodes(text, i + 1);
    }
    if i < l.next <= |text| && Quotes(text, i, l.next, l.value, l.holes) {
      DecodesScans(text, i + 1, l.next - 1, l.value, l.holes);
    }
  }

  // The token at a position is the one its characters say.

  lemma CharactersAgree(c: char)
    ensures IsIdentStart(c) <==> NameStart(c)
    ensures IsDigit(c) <==> Digit(c)
    ensures IsIdentChar(c) <==> NameChar(c)
  {
  }

  lemma AllCharactersAgree()
    ensures forall c :: (IsIdentStart(c) <==> NameStart(c)) && (IsIdentChar(c) <==> NameChar(c)) && (IsDigit(c) <==> Digit(c))
  {
    forall c
      ensures (IsIdentStart(c) <==> NameStart(c)) && (IsIdentChar(c) <==> NameChar(c)) && (IsDigit(c) <==> Digit(c))
    {
      CharactersAgree(c);
    }
  }

  lemma {:induction false} NameReaches(text: string, i: nat, end: nat, stop: nat)
    requires i <= end <= stop <= |text| && NameChars(text[i..end]) && (end < stop ==> !NameChar(text[end]))
    ensures IdentEnd(text, i, stop) == end
    decreases end - i
  {
    AllCharactersAgree();
    if i < end {
      assert text[i] == text[i..end][0] && text[i..end][1..] == text[i + 1..end];
      NameReaches(text, i + 1, end, stop);
    }
  }

  /** A name goes on as far as it can. */
  lemma NameStops(text: string, i: nat, end: nat, stop: nat)
    requires i <= end <= stop <= |text|
    ensures IdentEnd(text, i, stop) == end <==> NameChars(text[i..end]) && (end < stop ==> !NameChar(text[end]))
  {
    AllCharactersAgree();
    if NameChars(text[i..end]) && (end < stop ==> !NameChar(text[end])) {
      NameReaches(text, i, end, stop);
    }
  }

  predicate OperatorHead(c: char) {
    c in "?/|+-*%=!<>.,()[]{}:;"
  }

  lemma OperatorsListed(o: string)
    ensures IsOperator(o) <==> o in Operators()
    ensures IsOperator(o) ==> o != "" && OperatorHead(o[0])
  {
  }

  lemma HeadsDiffer(c: char)
    ensures OperatorHead(c) ==> !NameChar(c) && c !in {'"', '$', '@', ' '}
    ensures NameChar(c) ==> c !in {'"', '$', '@', '.', ' '}
    ensures Digit(c) ==> !NameStart(c)
  {
    CharactersAgree(c);
  }

  lemma OperatorsAgree()
    ensures forall o :: IsOperator(o) <==> o in Operators()
  {
    forall o
      ensures IsOperator(o) <==> o in Operators()
    {
      OperatorsListed(o);
    }
  }

  lemma {:induction false} FirstMatchIsListed(candidates: seq<string>, text: string, i: nat)
    requires i <= |text| && WellOrdered(candidates) && FirstMatch(candidates, text, i).Some?
    ensures FirstMatch(candidates, text, i).value in candidates
  {
    if !StartsAt(text, i, candidates[0]) {
      FirstMatchIsListed(candidates[1..], text, i);
    }
  }

  lemma LongestCandidate(all: set<string>, candidates: seq<string>, text: string, i: nat, o: string)
    requires i <= |text| && WellOrdered(candidates) && forall p :: p in all <==> p in candidates
    ensures FirstMatch(candidates, text, i) == Some(o) <==>
              o in all && StartsAt(text, i, o) && forall p :: p in all && StartsAt(text, i, p) ==> |p| <= |o|
  {
    if FirstMatch(candidates, text, i).Some? {
      FirstMatchIsListed(candidates, text, i);
    }
  }

  lemma OperatorIsLongest(text: string, i: nat, o: string)
    requires i <= |text|
    ensures OperatorAt(text, i) == Some(o) <==>
              OperatorHere(text, i, o)
  {
    OperatorsWellOrdered();
    OperatorsAgree();
    assert forall p :: IsOperator(p) <==> p in OPERATORS;
    LongestCandidate(OPERATORS, Operators(), text, i, o);
  }


  /** The first character that a token of a kind can have. */
  predicate Head(kind: Kind, c: char) {
    match kind
    case STRING => c == '"'
    case VARIABLE => c == '$'
    case FORMAT => c == '@'
    case NUMBER => Digit(c)
    case IDENT => NameStart(c)
    case FIELD => c == '.'
    case OPERATOR => OperatorHead(c)
    case END => false
  }

  lemma HeadShows(text: string, t: Token, end: nat)
    requires Says(text, t, end)
    ensures Head(t.kind, text[t.position])
  {
    var stretch := text[t.position..end];
    assert stretch[0] == text[t.position];
    CharactersAgree(text[t.position]);
    if t.kind == OPERATOR {
      OperatorsListed(t.text);
    }
  }

  /** The lexer takes `t` at its position, up to `end`. */
  predicate Takes(text: string, t: Token, end: nat, stop: nat) {
    && t.position < stop <= |text| && text[t.position] != ' '
    && TokenAt(text, t.position, stop).Some?
    && var l := TokenAt(text, t.position, stop).value; l.token == t && l.next == end
  }

  lemma StringTaken(text: string, t: Token, end: nat, stop: nat)
    requires t.position < stop <= |text| && text[t.position] == '"'
    ensures Takes(text, t, end, stop) <==> Reads(text, t, end, stop)
  {
    LiteralIsSpelled(text, t.position, Literal(t.text, t.holes, end, 0));
    if Reads(text, t, end, stop) {
      HeadShows(text, t, end);
      HeadsDiffer('"');
    }
  }

  lemma VariableTaken(text: string, t: Token, end: nat, stop: nat)
    requires t.position < stop <= |text| && text[t.position] == '$'
    ensures Takes(text, t, end, stop) <==> Reads(text, t, end, stop)
  {
    var i := t.position;
    if i < end <= stop {
      NameStops(text, i + 1, end, stop);
      assert text[i..end] == "$" + text[i + 1..end];
    }
    if Reads(text, t, end, stop) {
      HeadShows(text, t, end);
      HeadsDiffer('$');
      assert text[i + 1..end] == text[i..end][1..] == t.text;
    }
  }

  lemma FormatTaken(text: string, t: Token, end: nat, stop: nat)
    requires t.position < stop <= |text| && text[t.position] == '@'
    ensures Takes(text, t, end, stop) <==> Reads(text, t, end, stop)
  {
    var i := t.position;
    if i < end <= stop {
      NameStops(text, i + 1, end, stop);
      assert text[i..end][1..] == text[i + 1..end];
    }
    if Reads(text, t, end, stop) {
      HeadShows(text, t, end);
      HeadsDiffer('@');
    }
  }

  lemma NumberTaken(text: string, t: Token, end: nat, stop: nat)
    requires t.position < stop <= |text| && Digit(text[t.position])
    ensures Takes(text, t, end, stop) <==> Reads(text, t, end, stop)
  {
    CharactersAgree(text[t.position]);
    HeadsDiffer(text[t.position]);
    NumberIsLongest(text, t.position, stop);
    if Reads(text, t, end, stop) {
      HeadShows(text, t, end);
    }
  }

  lemma IdentTaken(text: string, t: Token, end: nat, stop: nat)
    requires t.position < stop <= |text| && NameStart(text[t.position])
    ensures Takes(text, t, end, stop) <==> Reads(text, t, end, stop)
  {
    var i := t.position;
    CharactersAgree(text[i]);
    HeadsDiffer(text[i]);
    if i < end <= stop {
      NameStops(text, i, end, stop);
    }
    if Reads(text, t, end, stop) {
      HeadShows(text, t, end);
    }
  }

  lemma DottedTaken(text: string, t: Token, end: nat, stop: nat)
    requires t.position + 1 < stop <= |text| && text[t.position] == '.' && NameStart(text[t.position + 1])
    ensures Takes(text, t, end, stop) <==> Reads(text, t, end, stop)
  {
    var i := t.position;
    CharactersAgree(text[i + 1]);
    HeadsDiffer(text[i + 1]);
    HeadsDiffer('.');
    if i + 1 <= end <= stop {
      NameStops(text, i + 1, end, stop);
      assert text[i..end] == "." + text[i + 1..end];
    }
    if Reads(text, t, end, stop) {
      HeadShows(text, t, end);
      assert text[i + 1..end] == text[i..end][1..];
    }
  }

  lemma QuotedTaken(text: string, t: Token, end: nat, stop: nat)
    requires t.position + 1 < stop <= |text| && text[t.position] == '.' && text[t.position + 1] == '"'
    ensures Takes(text, t, end, stop) <==> Reads(text, t, end, stop)
  {
    var i := t.position;
    HeadsDiffer('.');
    CharactersAgree('"');
    CharactersAgree('.');
    LiteralIsSpelled(text, i + 1, Literal(t.text, [], end, 0));
    if Reads(text, t, end, stop) {
      HeadShows(text, t, end);
      if text[i..end] == "." + t.text {
        assert text[i..end][1] == t.text[0];
      }
    }
  }

  /** Where no other token can begin. */
  predicate OperatorPlace(text: string, i: nat, stop: nat)
    requires i < |text|
  {
    text[i] !in {'"', '$', '@', ' '} && !NameChar(text[i]) && !(text[i] == '.' && Opens(text, i, stop))
  }

  lemma OperatorLexed(text: string, i: nat, stop: nat)
    requires i < stop <= |text| && OperatorPlace(text, i, stop)
    ensures var o := OperatorAt(text, i);
            TokenAt(text, i, stop) ==
              if o.None? then None else Some(Lexeme(Token(OPERATOR, o.value, i, []), i + |o.value|, 0))
  {
    CharactersAgree(text[i]);
    if i + 1 < stop {
      CharactersAgree(text[i + 1]);
    }
  }

  lemma FieldOpens(text: string, t: Token, end: nat, stop: nat)
    requires Reads(text, t, end, stop) && t.kind == FIELD
    ensures text[t.position] == '.' && Opens(text, t.position, stop)
  {
    HeadShows(text, t, end);
    if text[t.position..end] == "." + t.text {
      assert text[t.position..end][1] == t.text[0];
    }
  }

  /** The longest operator at `i`. */
  ghost predicate OperatorHere(text: string, i: nat, o: string)
    requires i <= |text|
  {
    IsOperator(o) && StartsAt(text, i, o) && forall p :: IsOperator(p) && StartsAt(text, i, p) ==> |p| <= |o|
  }

  lemma OperatorOnly(text: string, t: Token, end: nat, stop: nat)
    requires t.position < stop <= |text| && OperatorPlace(text, t.position, stop) && Reads(text, t, end, stop)
    ensures t.kind == OPERATOR
  {
    HeadShows(text, t, end);
    CharactersAgree(text[t.position]);
    if t.kind == FIELD {
      FieldOpens(text, t, end, stop);
    }
  }

  lemma OperatorSaid(text: string, t: Token, end: nat)
    requires t.kind == OPERATOR
    ensures Says(text, t, end) <==>
              && t.text != "" && t.holes == [] && end == t.position + |t.text|
              && t.position <= |text| && StartsAt(text, t.position, t.text) && IsOperator(t.text)
  {
    if Says(text, t, end) {
      assert |text[t.position..end]| == end - t.position;
    }
  }

  lemma OperatorRead(text: string, t: Token, end: nat, stop: nat)
    requires t.position < stop <= |text| && OperatorPlace(text, t.position, stop)
    ensures Reads(text, t, end, stop) <==>
              OperatorHere(text, t.position, t.text) && t == Token(OPERATOR, t.text, t.position, []) &&
              end == t.position + |t.text| && t.text != ""
  {
    if t.kind == OPERATOR {
      OperatorSaid(text, t, end);
    } else if Reads(text, t, end, stop) {
      OperatorOnly(text, t, end, stop);
    }
  }

  lemma OperatorTakes(text: string, t: Token, end: nat, stop: nat)
    requires t.position < stop <= |text| && OperatorPlace(text, t.position, stop)
    ensures Takes(text, t, end, stop) <==>
              OperatorAt(text, t.position) == Some(t.text) && t == Token(OPERATOR, t.text, t.position, []) &&
              end == t.position + |t.text|
  {
    OperatorLexed(text, t.position, stop);
  }

  lemma OperatorTaken(text: string, t: Token, end: nat, stop: nat)
    requires t.position < stop <= |text| && OperatorPlace(text, t.position, stop)
    ensures Takes(text, t, end, stop) <==> Reads(text, t, end, stop)
  {
    OperatorTakes(text, t, end, stop);
    OperatorIsLongest(text, t.position, t.text);
    OperatorRead(text, t, end, stop);
  }

  /** The lexer takes just the token that the characters say, as long as it can be, and nothing where they say none. */
  lemma TokenIsSaid(text: string, t: Token, end: nat, stop: nat)
    requires t.position < stop <= |text|
    ensures Takes(text, t, end, stop) <==> Reads(text, t, end, stop)
  {
    var i, c := t.position, text[t.position];
    if c == '"' {
      StringTaken(text, t, end, stop);
    } else if c == '$' {
      VariableTaken(text, t, end, stop);
    } else if c == '@' {
      FormatTaken(text, t, end, stop);
    } else if Digit(c) {
      NumberTaken(text, t, end, stop);
    } else if NameStart(c) {
      IdentTaken(text, t, end, stop);
    } else if c == '.' && Opens(text, i, stop) {
      if text[i + 1] == '"' {
        QuotedTaken(text, t, end, stop);
      } else {
        DottedTaken(text, t, end, stop);
      }
    } else if c == ' ' {
      if Reads(text, t, end, stop) {
        HeadShows(text, t, end);
        HeadsDiffer(' ');
      }
    } else {
      OperatorTaken(text, t, end, stop);
    }
  }

  // Whole spans.

  /** Tokens and blanks cover the span, and each token is what its characters say. */
  ghost predicate SaysAll(text: string, start: nat, stop: nat, l: Lexed) {
    && Tiles(text, start, stop, l)
    && forall k :: 0 <= k < |l.tokens| - 1 ==> Reads(text, l.tokens[k], l.ends[k], stop)
  }

  lemma {:induction false} LexedReads(text: string, i: nat, stop: nat)
    requires i <= |text| && stop <= |text| && LexFrom(text, i, stop).Some?
    ensures var l := LexFrom(text, i, stop).value;
            forall k :: 0 <= k < |l.tokens| - 1 ==> Reads(text, l.tokens[k], l.ends[k], stop)
    decreases |text| - i
  {
    if i < stop && text[i] == ' ' {
      LexedReads(text, i + 1, stop);
    } else if i < stop {
      var t, l := TokenAt(text, i, stop).value, LexFrom(text, i, stop).value;
      TokenIsSaid(text, t.token, t.next, stop);
      LexedReads(text, t.next, stop);
      forall k | 0 < k < |l.tokens| - 1
        ensures Reads(text, l.tokens[k], l.ends[k], stop)
      {
        assert l.tokens[k] == l.tokens[1..][k - 1] && l.ends[k] == l.ends[1..][k - 1];
      }
    }
  }

  /** The first token of such a span, and the span after it. */
  lemma FirstSaid(text: string, i: nat, stop: nat, l: Lexed)
    requires SaysAll(text, i, stop, l) && l.tokens[0].position == i < stop
    ensures |l.tokens| > 1 && Takes(text, l.tokens[0], l.ends[0], stop)
    ensures SaysAll(text, l.ends[0], stop, Lexed(l.tokens[1..], l.ends[1..], 0))
  {
    TokenIsSaid(text, l.tokens[0], l.ends[0], stop);
    var rest := Lexed(l.tokens[1..], l.ends[1..], 0);
    RestTiles(text, i, stop, l, rest);
    forall k | 0 <= k < |rest.tokens| - 1
      ensures Reads(text, rest.tokens[k], rest.ends[k], stop)
    {
      assert Reads(text, l.tokens[k + 1], l.ends[k + 1], stop);
    }
  }

  /** The span from `i` on is lexed into these tokens. */
  predicate LexesTo(text: string, i: nat, stop: nat, l: Lexed)
    requires i <= |text| && stop <= |text|
  {
    var lexed := LexFrom(text, i, stop);
    lexed.Some? && lexed.value.tokens == l.tokens && lexed.value.ends == l.ends
  }

  lemma LexedOneMore(text: string, i: nat, stop: nat, l: Lexed)
    requires |l.tokens| > 0 && |l.ends| > 0 && l.tokens[0].position == i && Takes(text, l.tokens[0], l.ends[0], stop)
    requires LexesTo(text, l.ends[0], stop, Lexed(l.tokens[1..], l.ends[1..], 0))
    ensures LexesTo(text, i, stop, l)
  {
  }

  lemma BlankSaid(text: string, i: nat, stop: nat, l: Lexed)
    requires SaysAll(text, i, stop, l) && i < l.tokens[0].position
    ensures i < stop && text[i] == ' ' && SaysAll(text, i + 1, stop, l)
  {
    assert TileAt(text, i, stop, l, 0);
    LaterTiles(text, i, i + 1, stop, l);
  }

  lemma BlankLexes(text: string, i: nat, stop: nat, l: Lexed)
    requires i < stop <= |text| && text[i] == ' ' && LexesTo(text, i + 1, stop, l)
    ensures LexesTo(text, i, stop, l)
  {
  }

  lemma NoneSaid(text: string, i: nat, l: Lexed)
    requires SaysAll(text, i, i, l)
    ensures LexesTo(text, i, i, l)
  {
    assert TileAt(text, i, i, l, 0);
  }

  lemma FirstPosition(text: string, i: nat, stop: nat, l: Lexed)
    requires SaysAll(text, i, stop, l)
    ensures i <= l.tokens[0].position && l.tokens[0].position <= l.ends[0] <= stop
    ensures |l.tokens| > 1 ==> l.tokens[0].position < l.ends[0]
  {
    assert TileAt(text, i, stop, l, 0);
  }

  /** A span whose characters say these tokens is lexed into them. */
  lemma {:induction false} SaidIsLexed(text: string, i: nat, stop: nat, l: Lexed)
    requires SaysAll(text, i, stop, l)
    ensures LexesTo(text, i, stop, l)
    decreases stop - i, 1
  {
    FirstPosition(text, i, stop, l);
    if i < l.tokens[0].position {
      BlankIsLexed(text, i, stop, l);
    } else if i < stop {
      FirstIsLexed(text, i, stop, l);
    } else {
      NoneSaid(text, i, l);
    }
  }

  lemma {:induction false} BlankIsLexed(text: string, i: nat, stop: nat, l: Lexed)
    requires SaysAll(text, i, stop, l) && i < l.tokens[0].position
    ensures LexesTo(text, i, stop, l)
    decreases stop - i, 0
  {
    BlankSaid(text, i, stop, l);
    SaidIsLexed(text, i + 1, stop, l);
    BlankLexes(text, i, stop, l);
  }

  lemma {:induction false} FirstIsLexed(text: string, i: nat, stop: nat, l: Lexed)
    requires SaysAll(text, i, stop, l) && l.tokens[0].position == i < stop
    ensures LexesTo(text, i, stop, l)
    decreases stop - i, 0
  {
    FirstSaid(text, i, stop, l);
    FirstPosition(text, i, stop, l);
    SaidIsLexed(text, l.ends[0], stop, Lexed(l.tokens[1..], l.ends[1..], 0));
    LexedOneMore(text, i, stop, l);
  }

  /** Lexing a condition is reading it: it gives just the tokens that the characters say, and fails where they say none. */
  lemma LexingIsReading(text: string, l: Lexed)
    ensures LexesTo(text, 0, |text|, l) <==> SaysAll(text, 0, |text|, l)
  {
    if LexesTo(text, 0, |text|, l) {
      ConditionTokensTile(text, 0);
      LexedReads(text, 0, |text|);
      SameTiles(text, LexFrom(text, 0, |text|).value, l);
    } else if SaysAll(text, 0, |text|, l) {
      SaidIsLexed(text, 0, |text|, l);
    }
  }

  lemma SameTiles(text: string, l: Lexed, same: Lexed)
    requires Tiles(text, 0, |text|, l) && same.tokens == l.tokens && same.ends == l.ends
    ensures Tiles(text, 0, |text|, same)
  {
    forall k | 0 <= k < |l.tokens|
      ensures TileAt(text, 0, |text|, same, k)
    {
      assert TileAt(text, 0, |text|, l, k);
    }
  }

  lemma LaterTiles(text: string, i: nat, later: nat, stop: nat, l: Lexed)
    requires Tiles(text, i, stop, l)
    requires i <= later <= stop && later <= l.tokens[0].position
    ensures Tiles(text, later, stop, l)
  {
    forall k | 0 <= k < |l.tokens|
      ensures TileAt(text, later, stop, l, k)
    {
      assert TileAt(text, i, stop, l, k);
    }
  }

  lemma RestTiles(text: string, i: nat, stop: nat, l: Lexed, rest: Lexed)
    requires Tiles(text, i, stop, l) && |l.tokens| > 1 && rest.tokens == l.tokens[1..] && rest.ends == l.ends[1..]
    ensures Tiles(text, l.ends[0], stop, rest)
  {
    assert TileAt(text, i, stop, l, 0);
    forall k | 0 <= k < |rest.tokens|
      ensures TileAt(text, l.ends[0], stop, rest, k)
    {
      assert TileAt(text, i, stop, l, k + 1);
    }
  }

  /** The text has `.name` from `i` on, and the name is over after it. */
  predicate FieldAt(text: string, i: nat, name: string) {
    var end := i + 1 + |name|;
    end <= |text| && text[i] == '.' && text[i + 1..end] == name && Name(name) && (end < |text| ==> !NameChar(text[end]))
  }

  lemma FieldName(text: string, i: nat, name: string)
    requires FieldAt(text, i, name)
    ensures i + 1 < |text| && NameStart(text[i + 1]) && IdentEnd(text, i + 1, |text|) == i + 1 + |name|
  {
    assert text[i + 1] == text[i + 1..i + 1 + |name|][0];
    NameReaches(text, i + 1, i + 1 + |name|, |text|);
  }

  lemma DottedToken(text: string, i: nat, stop: nat)
    requires i + 1 < stop <= |text| && text[i] == '.' && NameStart(text[i + 1])
    ensures var end := IdentEnd(text, i + 1, stop);
            TokenAt(text, i, stop) == Some(Lexeme(Token(FIELD, text[i + 1..end], i, []), end, 0))
  {
    CharactersAgree(text[i + 1]);
  }

  lemma FieldToken(text: string, i: nat, name: string)
    requires FieldAt(text, i, name)
    ensures i < |text| && text[i] != ' '
    ensures TokenAt(text, i, |text|) == Some(Lexeme(Token(FIELD, name, i, []), i + 1 + |name|, 0))
  {
    FieldName(text, i, name);
    DottedToken(text, i, |text|);
  }

  /** Lexing goes on after the token at `i`. */
  function Onward(t: Lexeme, rest: Option<Lexed>): Option<Lexed> {
    if rest.None? then None
    else Some(Lexed([t.token] + rest.value.tokens, [t.next] + rest.value.ends, Max(t.nest, rest.value.nest)))
  }

  lemma LexedThen(text: string, i: nat, stop: nat, t: Lexeme)
    requires i < stop <= |text| && text[i] != ' ' && TokenAt(text, i, stop) == Some(t)
    ensures LexFrom(text, i, stop) == Onward(t, LexFrom(text, t.next, stop))
  {
  }

  lemma FieldLexed(text: string, i: nat, name: string)
    requires FieldAt(text, i, name)
    ensures LexFrom(text, i, |text|) ==
              Onward(Lexeme(Token(FIELD, name, i, []), i + 1 + |name|, 0), LexFrom(text, i + 1 + |name|, |text|))
  {
    FieldToken(text, i, name);
    LexedThen(text, i, |text|, Lexeme(Token(FIELD, name, i, []), i + 1 + |name|, 0));
  }

  lemma {:induction false} UnquotedNestsNothing(text: string, i: nat)
    requires i <= |text| && '"' !in text && LexFrom(text, i, |text|).Some?
    ensures LexFrom(text, i, |text|).value.nest == 0
    decreases |text| - i
  {
    if i < |text| && text[i] == ' ' {
      UnquotedNestsNothing(text, i + 1);
    } else if i < |text| {
      UnquotedNestsNothing(text, TokenAt(text, i, |text|).value.next);
    }
  }

  lemma FieldReads(text: string, i: nat, name: string)
    requires FieldAt(text, i, name)
    ensures Reads(text, Token(FIELD, name, i, []), i + 1 + |name|, |text|)
  {
    FieldName(text, i, name);
    assert text[i..i + 1 + |name|] == "." + name;
  }
}
