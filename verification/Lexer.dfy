/** The lexer as it runs: loops over an index, drawing on one budget. */
module Lexer {
  import opened Wrappers
  import opened Lexical

  const MAX_TOKENS: nat := 256
  const MAX_NESTING_DEPTH: nat := 32

  /** The tokens and levels a scan has used so far, shared by the lexer, the parser and every nested scan. */
  class Budget {
    var tokens: nat
    var depth: nat

    constructor ()
      ensures tokens == 0 && depth == 0
    {
      tokens, depth := 0, 0;
    }

    method Spend() returns (ok: bool)
      modifies this
      ensures tokens == old(tokens) + 1 && depth == old(depth)
      ensures ok <==> tokens <= 256
    {
      tokens := tokens + 1;
      ok := tokens <= MAX_TOKENS;
    }

    /** The level is counted before it is refused. */
    method Descend() returns (ok: bool)
      modifies this
      ensures depth == old(depth) + 1 && tokens == old(tokens)
      ensures ok <==> depth <= 32
    {
      depth := depth + 1;
      ok := depth <= MAX_NESTING_DEPTH;
    }

    method Ascend()
      requires depth > 0
      modifies this
      ensures depth == old(depth) - 1 && tokens == old(tokens)
    {
      depth := depth - 1;
    }
  }

  method AssertSourceShape(text: string) returns (ok: bool)
    ensures ok <==> SourceShape(text)
    ensures ok <==> '#' !in text && forall c :: c in text ==> 0x20 <= c as int < 0x7F
  {
    for position := 0 to |text|
      invariant SourceShape(text[..position])
    {
      var c := text[position];
      if c == '#' || c == '\n' || c == '\r' || c == '\t' || c < ' ' || c == '\U{7F}' || c > '~' {
        assert c == text[position] && c in text;
        return false;
      }
      assert text[..position + 1] == text[..position] + [c];
    }
    assert text[..|text|] == text;
    ok := true;
  }

  /** A literal read up to here, continued by the rest of the scan. */
  ghost function Resume(parts: string, holes: seq<Hole>, nest: nat, rest: Option<Literal>): Option<Literal> {
    if rest.None? then None
    else Some(Literal(parts + rest.value.value, holes + rest.value.holes, rest.value.next, Max(nest, rest.value.nest)))
  }

  // One step of the scan of a literal: a plain character, a hole, an escape.

  lemma CharResumed(text: string, index: nat, parts: string, holes: seq<Hole>, nest: nat)
    requires index < |text| && text[index] != '"' && text[index] != '\\'
    ensures Resume(parts, holes, nest, ScanString(text, index)) ==
              Resume(parts + [text[index]], holes, nest, ScanString(text, index + 1))
  {
    ResumeChar(parts, holes, nest, text[index], ScanString(text, index + 1));
  }

  lemma HoleResumed(text: string, index: nat, parts: string, holes: seq<Hole>, nest: nat)
    requires index + 1 < |text| && text[index] == '\\' && text[index + 1] == '('
    ensures Resume(parts, holes, nest, ScanString(text, index)) ==
              var hole := ScanHole(text, index + 2, 1);
              if hole.None? then None
              else Resume(parts, holes + [Hole(index + 2, hole.value.end)], Max(nest, 1 + hole.value.nest),
                          ScanString(text, hole.value.end + 1))
  {
    var hole := ScanHole(text, index + 2, 1);
    if hole.Some? {
      ResumeHole(parts, holes, nest, index + 2, hole.value, ScanString(text, hole.value.end + 1));
    }
  }

  lemma EscapeResumed(text: string, index: nat, parts: string, holes: seq<Hole>, nest: nat)
    requires index + 1 < |text| && text[index] == '\\' && text[index + 1] != '('
    ensures Resume(parts, holes, nest, ScanString(text, index)) ==
              var escape := Escape(text[index + 1]);
              if escape.None? then None else Resume(parts + [escape.value], holes, nest, ScanString(text, index + 2))
  {
    if Escape(text[index + 1]).Some? {
      ResumeChar(parts, holes, nest, Escape(text[index + 1]).value, ScanString(text, index + 2));
    }
  }

  /** Succeeds exactly when the literal is well formed and its nesting fits the depth left. */
  method LexString(text: string, start: nat, budget: Budget) returns (result: Result<Token>, next: nat)
    requires start < |text|
    modifies budget
    ensures budget.tokens == old(budget.tokens) && budget.depth >= old(budget.depth)
    ensures result.Ok? <==> var s := ScanString(text, start + 1);
                            s.Some? && old(budget.depth) + 1 + s.value.nest <= MAX_NESTING_DEPTH
    ensures result.Ok? ==> var s := ScanString(text, start + 1).value;
                           result.value == Token(STRING, s.value, start, s.holes) && next == s.next
    ensures result.Ok? ==> budget.depth == old(budget.depth)
    decreases |text| - start, 0
  {
    next := start;
    var entered := budget.Descend();
    if !entered {
      return Refused, next;
    }
    var parts, holes: seq<Hole>, index := "", [], start + 1;
    ghost var nest: nat := 0;
    ResumeStart(ScanString(text, index));
    while index < |text|
      invariant start < index <= |text|
      invariant budget.tokens == old(budget.tokens) && budget.depth == old(budget.depth) + 1
      invariant budget.depth + nest <= MAX_NESTING_DEPTH
      invariant ScanString(text, start + 1) == Resume(parts, holes, nest, ScanString(text, index))
    {
      var c := text[index];
      if c == '"' {
        budget.Ascend();
        assert parts + "" == parts && holes + [] == holes;
        return Ok(Token(STRING, parts, start, holes)), index + 1;
      }
      if c != '\\' {
        CharResumed(text, index, parts, holes, nest);
        parts, index := parts + [c], index + 1;
        continue;
      }
      if index + 1 >= |text| {
        break;
      }
      var ok;
      ok, parts, holes, index, nest := LexEscape(text, index, budget, parts, holes, nest);
      if !ok {
        budget.Ascend();
        return Refused, next;
      }
    }
    budget.Ascend();
    return Refused, next;
  }

  /** The escape or the hole at a backslash, taken onto the literal read so far. */
  method LexEscape(text: string, index: nat, budget: Budget, parts: string, holes: seq<Hole>, ghost nest: nat)
    returns (ok: bool, parts': string, holes': seq<Hole>, next: nat, ghost nest': nat)
    requires index + 1 < |text| && text[index] == '\\' && budget.depth + nest <= MAX_NESTING_DEPTH
    modifies budget
    ensures budget.tokens == old(budget.tokens) && budget.depth >= old(budget.depth)
    ensures ok ==>
              && budget.depth == old(budget.depth) && old(budget.depth) + nest' <= MAX_NESTING_DEPTH
              && index < next <= |text|
              && Resume(parts, holes, nest, ScanString(text, index)) == Resume(parts', holes', nest', ScanString(text, next))
    ensures !ok ==> var s := ScanString(text, index); s.None? || old(budget.depth) + s.value.nest > MAX_NESTING_DEPTH
    decreases |text| - index, 0
  {
    ok, parts', holes', next, nest' := false, parts, holes, index, nest;
    if text[index + 1] == '(' {
      HoleResumed(text, index, parts, holes, nest);
      var closed := ScanInterpolation(text, index + 2, budget);
      if closed.Ok? {
        ok, holes', next := true, holes + [Hole(index + 2, closed.value)], closed.value + 1;
        nest' := Max(nest, 1 + ScanHole(text, index + 2, 1).value.nest);
      }
      return;
    }
    EscapeResumed(text, index, parts, holes, nest);
    var escape := Escape(text[index + 1]);
    if escape.Some? {
      ok, parts', next := true, parts + [escape.value], index + 2;
    }
  }

  lemma ResumeStart(rest: Option<Literal>)
    ensures Resume("", [], 0, rest) == rest
  {
    if rest.Some? {
      assert "" + rest.value.value == rest.value.value && [] + rest.value.holes == rest.value.holes;
    }
  }

  lemma ResumeChar(parts: string, holes: seq<Hole>, nest: nat, c: char, rest: Option<Literal>)
    ensures Resume(parts, holes, nest, PrependChar(c, rest)) == Resume(parts + [c], holes, nest, rest)
  {
    if rest.Some? {
      assert parts + ([c] + rest.value.value) == parts + [c] + rest.value.value;
    }
  }

  lemma ResumeHole(parts: string, holes: seq<Hole>, nest: nat, start: nat, hole: Closing, rest: Option<Literal>)
    ensures Resume(parts, holes, nest, PrependHole(start, hole, rest))
            == Resume(parts, holes + [Hole(start, hole.end)], Max(nest, 1 + hole.nest), rest)
  {
    if rest.Some? {
      var h := Hole(start, hole.end);
      assert holes + ([h] + rest.value.holes) == holes + [h] + rest.value.holes;
    }
  }

  /** Succeeds exactly when the body closes and its nesting fits. */
  method ScanInterpolation(text: string, start: nat, budget: Budget) returns (result: Result<nat>)
    requires start <= |text|
    modifies budget
    ensures budget.tokens == old(budget.tokens) && budget.depth >= old(budget.depth)
    ensures result.Ok? <==> var h := ScanHole(text, start, 1);
                            h.Some? && old(budget.depth) + 1 + h.value.nest <= MAX_NESTING_DEPTH
    ensures result.Ok? ==> result.value == ScanHole(text, start, 1).value.end && budget.depth == old(budget.depth)
    decreases |text| - start, 1
  {
    var entered := budget.Descend();
    if !entered {
      return Refused;
    }
    var depth, index := 1, start;
    ghost var nest: nat := 0;
    while index < |text|
      invariant start <= index <= |text| && depth > 0
      invariant budget.tokens == old(budget.tokens) && budget.depth == old(budget.depth) + 1
      invariant budget.depth + nest <= MAX_NESTING_DEPTH
      invariant var rest := ScanHole(text, index, depth);
                ScanHole(text, start, 1) == if rest.None? then None
                                            else Some(Closing(rest.value.end, Max(nest, rest.value.nest)))
    {
      var c := text[index];
      if c == '"' {
        var nested, next := LexString(text, index, budget);
        if nested.Refused? {
          budget.Ascend();
          return Refused;
        }
        nest := Max(nest, 1 + ScanString(text, index + 1).value.nest);
        index := next;
        continue;
      }
      if c == '(' {
        depth := depth + 1;
      } else if c == ')' {
        depth := depth - 1;
        if depth == 0 {
          budget.Ascend();
          return Ok(index);
        }
      }
      index := index + 1;
    }
    budget.Ascend();
    return Refused;
  }

  method NameEnd(text: string, start: nat, stop: nat) returns (end: nat)
    requires start <= stop <= |text|
    ensures end == IdentEnd(text, start, stop)
  {
    end := start;
    while end < stop && IsIdentChar(text[end])
      invariant start <= end <= stop && IdentEnd(text, start, stop) == IdentEnd(text, end, stop)
    {
      end := end + 1;
    }
  }

  method SkipDigits(text: string, start: nat, stop: nat) returns (end: nat)
    requires start <= stop <= |text|
    ensures end == DigitsEnd(text, start, stop)
  {
    end := start;
    while end < stop && IsDigit(text[end])
      invariant start <= end <= stop && DigitsEnd(text, start, stop) == DigitsEnd(text, end, stop)
    {
      end := end + 1;
    }
  }

  method SkipFraction(text: string, start: nat, stop: nat) returns (end: nat)
    requires start < stop <= |text| && IsDigit(text[start])
    ensures end == FractionEnd(text, start, stop)
  {
    end := SkipDigits(text, start, stop);
    if end < stop && text[end] == '.' && end + 1 < stop && IsDigit(text[end + 1]) {
      end := SkipDigits(text, end + 1, stop);
    }
  }

  method SkipExponent(text: string, start: nat, stop: nat) returns (end: nat)
    requires start < stop <= |text| && IsDigit(text[start])
    ensures end == NumberEnd(text, start, stop)
  {
    end := SkipFraction(text, start, stop);
    if end < stop && (text[end] == 'e' || text[end] == 'E') {
      var exponent := end + 1;
      if exponent < stop && (text[exponent] == '+' || text[exponent] == '-') {
        exponent := exponent + 1;
      }
      if exponent < stop && IsDigit(text[exponent]) {
        end := SkipDigits(text, exponent, stop);
      }
    }
  }

  /** The longest numeral that begins here. */
  method LexNumber(text: string, start: nat, stop: nat) returns (token: Token, next: nat)
    requires start < stop <= |text| && IsDigit(text[start])
    ensures next == NumberEnd(text, start, stop) && token == Token(NUMBER, text[start..next], start, [])
    ensures Numeral(text, start, next) && forall end: nat :: end <= stop && Numeral(text, start, end) ==> end <= next
  {
    next := SkipExponent(text, start, stop);
    token := Token(NUMBER, text[start..next], start, []);
    NumberIsLongest(text, start, stop);
  }

  method LexToken(text: string, index: nat, stop: nat, budget: Budget) returns (result: Result<Token>, next: nat)
    requires index < stop <= |text| && text[index] != ' ' && budget.depth <= MAX_NESTING_DEPTH
    modifies budget
    ensures budget.tokens == old(budget.tokens) && budget.depth >= old(budget.depth)
    ensures result.Ok? <==> var l := TokenAt(text, index, stop);
                            l.Some? && old(budget.depth) + l.value.nest <= MAX_NESTING_DEPTH
    ensures result.Ok? ==> var l := TokenAt(text, index, stop).value; result.value == l.token && next == l.next
    ensures result.Ok? ==> budget.depth == old(budget.depth)
  {
    next := index;
    var c := text[index];
    if c == '"' {
      result, next := LexString(text, index, budget);
    } else if c == '$' {
      next := NameEnd(text, index + 1, stop);
      result := if next == index + 1 then Refused else Ok(Token(VARIABLE, text[index + 1..next], index, []));
    } else if c == '@' {
      next := NameEnd(text, index + 1, stop);
      result := Ok(Token(FORMAT, text[index..next], index, []));
    } else if IsDigit(c) {
      var token;
      token, next := LexNumber(text, index, stop);
      result := Ok(token);
    } else if IsIdentStart(c) {
      next := NameEnd(text, index, stop);
      result := Ok(Token(IDENT, text[index..next], index, []));
    } else if c == '.' && index + 1 < stop && IsIdentStart(text[index + 1]) {
      next := NameEnd(text, index + 1, stop);
      result := Ok(Token(FIELD, text[index + 1..next], index, []));
    } else if c == '.' && index + 1 < stop && text[index + 1] == '"' {
      result, next := LexString(text, index + 1, budget);
      if result.Ok? {
        result := if result.value.holes != [] then Refused else Ok(Token(FIELD, result.value.text, index, []));
      }
    } else {
      var operator := OperatorAt(text, index);
      if operator.None? {
        return Refused, next;
      }
      return Ok(Token(OPERATOR, operator.value, index, [])), index + |operator.value|;
    }
  }

  ghost function ResumeLexed(tokens: seq<Token>, nest: nat, rest: Option<Lexed>): Option<(seq<Token>, nat)> {
    if rest.None? then None else Some((tokens + rest.value.tokens, Max(nest, rest.value.nest)))
  }

  /** What an equation between resumptions says of the whole span. */
  lemma ResumedMeans(all: Option<Lexed>, tokens: seq<Token>, nest: nat, rest: Option<Lexed>)
    requires ResumeLexed([], 0, all) == ResumeLexed(tokens, nest, rest)
    ensures all.Some? <==> rest.Some?
    ensures all.Some? ==> all.value.tokens == tokens + rest.value.tokens && all.value.nest == Max(nest, rest.value.nest)
  {
    if all.Some? {
      assert [] + all.value.tokens == all.value.tokens;
    }
  }

  /** Lexing from `start` is lexing from `index` with `tokens` read already. */
  ghost predicate Resumes(text: string, start: nat, stop: nat, index: nat, tokens: seq<Token>, nest: nat)
    requires start <= |text| && stop <= |text| && index <= |text|
  {
    ResumeLexed([], 0, LexFrom(text, start, stop)) == ResumeLexed(tokens, nest, LexFrom(text, index, stop))
  }

  lemma BlankResumes(text: string, start: nat, stop: nat, index: nat, tokens: seq<Token>, nest: nat)
    requires start <= |text| && index < stop <= |text| && text[index] == ' '
    requires Resumes(text, start, stop, index, tokens, nest)
    ensures Resumes(text, start, stop, index + 1, tokens, nest)
  {
  }

  lemma TokenResumed(text: string, index: nat, stop: nat, tokens: seq<Token>, nest: nat)
    requires index < stop <= |text| && text[index] != ' '
    ensures ResumeLexed(tokens, nest, LexFrom(text, index, stop)) ==
              var t := TokenAt(text, index, stop);
              if t.None? then None
              else ResumeLexed(tokens + [t.value.token], Max(nest, t.value.nest), LexFrom(text, t.value.next, stop))
  {
    var t := TokenAt(text, index, stop);
    if t.Some? && LexFrom(text, t.value.next, stop).Some? {
      var rest := LexFrom(text, t.value.next, stop).value.tokens;
      assert tokens + ([t.value.token] + rest) == tokens + [t.value.token] + rest;
    }
  }

  /** One token further, if there is one: the span has it, and more to come. */
  lemma TokenResumes(text: string, start: nat, stop: nat, index: nat, tokens: seq<Token>, nest: nat)
    requires start <= |text| && index < stop <= |text| && text[index] != ' '
    requires Resumes(text, start, stop, index, tokens, nest)
    ensures var all, t := LexFrom(text, start, stop), TokenAt(text, index, stop);
            && (t.None? ==> all.None?)
            && (t.Some? ==> Resumes(text, start, stop, t.value.next, tokens + [t.value.token], Max(nest, t.value.nest)))
            && (t.Some? && all.Some? ==> |all.value.tokens| > |tokens| + 1 && all.value.nest >= t.value.nest)
  {
    TokenResumed(text, index, stop, tokens, nest);
    var t := TokenAt(text, index, stop);
    if t.Some? {
      ResumedMeans(LexFrom(text, start, stop), tokens + [t.value.token], Max(nest, t.value.nest), LexFrom(text, t.value.next, stop));
    }
  }

  lemma EndResumes(text: string, start: nat, stop: nat, index: nat, tokens: seq<Token>, nest: nat)
    requires start <= |text| && stop <= index <= |text| && Resumes(text, start, stop, index, tokens, nest)
    ensures var all := LexFrom(text, start, stop);
            all.Some? && all.value.tokens == tokens + [Token(END, "", stop, [])] && all.value.nest == nest
  {
    ResumedMeans(LexFrom(text, start, stop), tokens, nest, LexFrom(text, index, stop));
  }

  /** One token on the budget. */
  method LexOne(text: string, index: nat, stop: nat, budget: Budget) returns (result: Result<(Token, nat)>)
    requires index < stop <= |text| && text[index] != ' '
    requires budget.tokens <= MAX_TOKENS && budget.depth <= MAX_NESTING_DEPTH
    modifies budget
    ensures result.Ok? <==> var t := TokenAt(text, index, stop);
                            && t.Some? && old(budget.tokens) < MAX_TOKENS
                            && old(budget.depth) + t.value.nest <= MAX_NESTING_DEPTH
    ensures result.Ok? ==> var t := TokenAt(text, index, stop).value; result.value == (t.token, t.next)
    ensures result.Ok? ==> budget.tokens == old(budget.tokens) + 1 && budget.depth == old(budget.depth)
    ensures budget.tokens >= old(budget.tokens) && budget.depth >= old(budget.depth)
  {
    var lexed, next := LexToken(text, index, stop, budget);
    if lexed.Refused? {
      return Refused;
    }
    var spent := budget.Spend();
    if !spent {
      return Refused;
    }
    return Ok((lexed.value, next));
  }

  /** Succeeds exactly when the span lexes within the tokens and the depth left. */
  method Lex(text: string, budget: Budget, start: nat, stop: nat) returns (result: Result<seq<Token>>)
    requires start <= |text| && stop <= |text|
    requires budget.tokens <= MAX_TOKENS && budget.depth <= MAX_NESTING_DEPTH
    modifies budget
    ensures result.Ok? <==> var l := LexFrom(text, start, stop);
                            && l.Some? && old(budget.tokens) + |l.value.tokens| <= MAX_TOKENS
                            && old(budget.depth) + l.value.nest <= MAX_NESTING_DEPTH
    ensures result.Ok? ==> result.value == LexFrom(text, start, stop).value.tokens
    ensures result.Ok? ==> budget.tokens == old(budget.tokens) + |result.value| && budget.depth == old(budget.depth)
    ensures budget.tokens >= old(budget.tokens) && budget.depth >= old(budget.depth)
  {
    var tokens: seq<Token>, index := [], start;
    ghost var nest: nat := 0;
    while index < stop
      invariant start <= index <= |text|
      invariant budget.depth == old(budget.depth) && budget.tokens == old(budget.tokens) + |tokens| <= MAX_TOKENS
      invariant budget.depth + nest <= MAX_NESTING_DEPTH
      invariant Resumes(text, start, stop, index, tokens, nest)
      decreases |text| - index
    {
      if text[index] == ' ' {
        BlankResumes(text, start, stop, index, tokens, nest);
        index := index + 1;
        continue;
      }
      TokenResumes(text, start, stop, index, tokens, nest);
      var lexed := LexOne(text, index, stop, budget);
      if lexed.Refused? {
        return Refused;
      }
      nest := Max(nest, TokenAt(text, index, stop).value.nest);
      tokens, index := tokens + [lexed.value.0], lexed.value.1;
    }
    EndResumes(text, start, stop, index, tokens, nest);
    var spent := budget.Spend();
    if !spent {
      return Refused;
    }
    return Ok(tokens + [Token(END, "", stop, [])]);
  }
}
