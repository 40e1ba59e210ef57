/** What the lexer reads: string literals with their holes, tokens, token sequences. */
module Lexical {
  import opened Wrappers

  datatype Kind = FIELD | IDENT | VARIABLE | NUMBER | STRING | FORMAT | OPERATOR | END

  /** The body of an interpolation in a string literal: from past its opening to its closing parenthesis. */
  datatype Hole = Hole(start: nat, end: nat)

  datatype Token = Token(kind: Kind, text: string, position: nat, holes: seq<Hole>)

  /** A string literal read to its closing quote: `nest` levels are entered below it. */
  datatype Literal = Literal(value: string, holes: seq<Hole>, next: nat, nest: nat)

  datatype Closing = Closing(end: nat, nest: nat)

  datatype Lexeme = Lexeme(token: Token, next: nat, nest: nat)

  /** Tokens with the offset just past each. */
  datatype Lexed = Lexed(tokens: seq<Token>, ends: seq<nat>, nest: nat)

  function Max(a: nat, b: nat): nat {
    if a < b then b else a
  }

  // ---------- characters ----------

  predicate IsDigit(c: char) { '0' <= c <= '9' }

  predicate IsIdentStart(c: char) { 'a' <= c <= 'z' || 'A' <= c <= 'Z' || c == '_' }

  predicate IsIdentChar(c: char) { IsIdentStart(c) || IsDigit(c) }

  /** The characters that open or close a span the scanner counts. */
  predicate IsDelimiter(c: char) { c == '"' || c == '(' || c == ')' }

  function Escape(c: char): Option<char> {
    match c
    case '"' => Some('"')
    case '\\' => Some('\\')
    case '/' => Some('/')
    case 'b' => Some('\U{8}')
    case 'f' => Some('\U{C}')
    case 'n' => Some('\n')
    case 'r' => Some('\r')
    case 't' => Some('\t')
    case _ => None
  }

  /** The raw-text gate: printable ASCII with no `#`. */
  predicate SourceShape(text: string) {
    forall i :: 0 <= i < |text| ==> ' ' <= text[i] <= '~' && text[i] != '#'
  }

  // ---------- strings and holes ----------

  /** The literal whose opening quote is just before `i`. */
  function ScanString(text: string, i: nat): (r: Option<Literal>)
    requires i <= |text|
    ensures r.Some? ==> i < r.value.next <= |text| && text[r.value.next - 1] == '"'
    decreases |text| - i, 0
  {
    if i == |text| then None
    else if text[i] == '"' then Some(Literal("", [], i + 1, 0))
    else if text[i] != '\\' then PrependChar(text[i], ScanString(text, i + 1))
    else if i + 1 == |text| then None
    else if text[i + 1] == '(' then
      var hole := ScanHole(text, i + 2, 1);
      if hole.None? then None
      else PrependHole(i + 2, hole.value, ScanString(text, hole.value.end + 1))
    else
      var c := Escape(text[i + 1]);
      if c.None? then None else PrependChar(c.value, ScanString(text, i + 2))
  }

  /** The `)` that closes the hole whose body goes on at `i` with `depth` parentheses open. */
  function ScanHole(text: string, i: nat, depth: nat): (r: Option<Closing>)
    requires i <= |text| && depth > 0
    ensures r.Some? ==> i <= r.value.end < |text| && text[r.value.end] == ')'
    decreases |text| - i, 1
  {
    if i == |text| then None
    else if text[i] == '"' then
      var s := ScanString(text, i + 1);
      if s.None? then None
      else
        var rest := ScanHole(text, s.value.next, depth);
        if rest.None? then None else Some(Closing(rest.value.end, Max(1 + s.value.nest, rest.value.nest)))
    else if text[i] == '(' then ScanHole(text, i + 1, depth + 1)
    else if text[i] == ')' then
      if depth == 1 then Some(Closing(i, 0)) else ScanHole(text, i + 1, depth - 1)
    else ScanHole(text, i + 1, depth)
  }

  function PrependChar(c: char, rest: Option<Literal>): (r: Option<Literal>)
    ensures rest.Some? <==> r.Some?
    ensures r.Some? ==> r.value.next == rest.value.next
  {
    if rest.None? then None else Some(rest.value.(value := [c] + rest.value.value))
  }

  function PrependHole(start: nat, hole: Closing, rest: Option<Literal>): (r: Option<Literal>)
    ensures rest.Some? <==> r.Some?
    ensures r.Some? ==> r.value.next == rest.value.next
  {
    if rest.None? then None
    else
      var l := rest.value;
      Some(Literal(l.value, [Hole(start, hole.end)] + l.holes, l.next, Max(1 + hole.nest, l.nest)))
  }

  // ---------- names, numbers, operators ----------

  function IdentEnd(text: string, i: nat, stop: nat): (end: nat)
    requires i <= stop <= |text|
    ensures i <= end <= stop
    ensures forall k :: i <= k < end ==> IsIdentChar(text[k])
    ensures end < stop ==> !IsIdentChar(text[end])
    decreases stop - i
  {
    if i < stop && IsIdentChar(text[i]) then IdentEnd(text, i + 1, stop) else i
  }

  function DigitsEnd(text: string, i: nat, stop: nat): (end: nat)
    requires i <= stop <= |text|
    ensures i <= end <= stop
    ensures forall k :: i <= k < end ==> IsDigit(text[k])
    ensures end < stop ==> !IsDigit(text[end])
    decreases stop - i
  {
    if i < stop && IsDigit(text[i]) then DigitsEnd(text, i + 1, stop) else i
  }

  predicate IsNumberChar(c: char) {
    IsDigit(c) || c == '.' || c == 'e' || c == 'E' || c == '+' || c == '-'
  }

  /** Digits, then a fraction and an exponent where each has a digit of its own. */
  function NumberEnd(text: string, i: nat, stop: nat): (end: nat)
    requires i < stop <= |text| && IsDigit(text[i])
    ensures i < end <= stop
    ensures forall k :: i <= k < end ==> IsNumberChar(text[k])
  {
    var fraction := FractionEnd(text, i, stop);
    if fraction < stop && (text[fraction] == 'e' || text[fraction] == 'E') then
      var exponent := if fraction + 1 < stop && (text[fraction + 1] == '+' || text[fraction + 1] == '-')
                      then fraction + 2 else fraction + 1;
      if exponent < stop && IsDigit(text[exponent]) then DigitsEnd(text, exponent, stop) else fraction
    else fraction
  }

  predicate AllDigits(text: string, i: nat, end: nat)
    requires i <= end <= |text|
  {
    forall k :: i <= k < end ==> IsDigit(text[k])
  }

  /** An exponent without its digits: the letter, with or without a sign. */
  predicate ExponentMark(text: string, i: nat, x: nat)
    requires i < x <= |text|
  {
    && (text[i] == 'e' || text[i] == 'E')
    && (x == i + 1 || (x == i + 2 && (text[i + 1] == '+' || text[i + 1] == '-')))
  }

  /** A numeral in `text[i..end]`: digits up to `a`, a fraction or none up to `b`, and an exponent or none. */
  predicate NumeralParts(text: string, i: nat, a: nat, b: nat, end: nat)
    requires end <= |text|
  {
    && i < a <= b <= end && AllDigits(text, i, a)
    && (b == a || (a + 1 < b && text[a] == '.' && AllDigits(text, a + 1, b)))
    && (end == b || exists x :: b < x < end && ExponentMark(text, b, x) && AllDigits(text, x, end))
  }

  ghost predicate Numeral(text: string, i: nat, end: nat)
    requires end <= |text|
  {
    exists a: nat, b: nat :: NumeralParts(text, i, a, b, end)
  }

  lemma {:induction false} DigitsReach(text: string, i: nat, stop: nat, end: nat)
    requires i <= end <= stop <= |text| && AllDigits(text, i, end)
    ensures end <= DigitsEnd(text, i, stop)
    decreases end - i
  {
    if i < end {
      DigitsReach(text, i + 1, stop, end);
    }
  }

  /** Where the whole part and the fraction of a number end. */
  function FractionEnd(text: string, i: nat, stop: nat): (end: nat)
    requires i < stop <= |text| && IsDigit(text[i])
    ensures i < end <= stop
    ensures forall k :: i <= k < end ==> IsNumberChar(text[k])
  {
    var whole := DigitsEnd(text, i, stop);
    if whole + 1 < stop && text[whole] == '.' && IsDigit(text[whole + 1]) then DigitsEnd(text, whole + 1, stop) else whole
  }

  lemma FractionReach(text: string, i: nat, stop: nat, a: nat, b: nat, end: nat)
    requires i < stop <= |text| && IsDigit(text[i]) && end <= stop && NumeralParts(text, i, a, b, end)
    ensures b == end <= FractionEnd(text, i, stop) || b == FractionEnd(text, i, stop)
  {
    DigitsReach(text, i, stop, a);
    if b > a {
      DigitsReach(text, a + 1, stop, b);
    }
  }

  lemma NumeralReach(text: string, i: nat, stop: nat, a: nat, b: nat, end: nat)
    requires i < stop <= |text| && IsDigit(text[i]) && end <= stop && NumeralParts(text, i, a, b, end)
    ensures end <= NumberEnd(text, i, stop)
  {
    FractionReach(text, i, stop, a, b, end);
    if b < end {
      var x :| b < x < end && ExponentMark(text, b, x) && AllDigits(text, x, end);
      DigitsReach(text, x, stop, end);
    }
  }

  /** The number read is a numeral, and no numeral that begins there is longer. */
  lemma NumberIsLongest(text: string, i: nat, stop: nat)
    requires i < stop <= |text| && IsDigit(text[i])
    ensures Numeral(text, i, NumberEnd(text, i, stop))
    ensures forall end: nat :: end <= stop && Numeral(text, i, end) ==> end <= NumberEnd(text, i, stop)
  {
    var whole, fraction, next := DigitsEnd(text, i, stop), FractionEnd(text, i, stop), NumberEnd(text, i, stop);
    if fraction < next {
      var x := if text[fraction + 1] == '+' || text[fraction + 1] == '-' then fraction + 2 else fraction + 1;
      assert ExponentMark(text, fraction, x) && AllDigits(text, x, next);
    }
    assert NumeralParts(text, i, whole, fraction, next);
    forall end: nat | end <= stop && Numeral(text, i, end)
      ensures end <= next
    {
      var a: nat, b: nat :| NumeralParts(text, i, a, b, end);
      NumeralReach(text, i, stop, a, b, end);
    }
  }

  const TRIPLES: seq<string> := ["?//", "//="]
  const DOUBLES: seq<string> := ["|=", "+=", "-=", "*=", "/=", "%=", "==", "!=", "<=", ">=", "//", ".."]
  const SINGLES: seq<string> :=
    ["=", "<", ">", "|", ",", "+", "-", "*", "/", "%", "(", ")", "[", "]", "{", "}", ":", ";", "?", "."]

  /** Every operator, longest first so that a prefix never shadows a longer one. */
  function Operators(): seq<string> { TRIPLES + DOUBLES + SINGLES }

  predicate StartsAt(text: string, i: nat, candidate: string)
    requires i <= |text|
  {
    i + |candidate| <= |text| && text[i..i + |candidate|] == candidate
  }

  /** Longest first, and a parenthesis or quote is never part of a longer operator. */
  predicate WellOrdered(candidates: seq<string>) {
    && (forall k :: 0 <= k < |candidates| ==> candidates[k] != "")
    && (forall j, k :: 0 <= j < k < |candidates| ==> |candidates[k]| <= |candidates[j]|)
    && (forall k :: 0 <= k < |candidates| && |candidates[k]| > 1 ==> forall c :: c in candidates[k] ==> !IsDelimiter(c))
  }

  /** The first candidate that the text has at `i`: the longest one. */
  function FirstMatch(candidates: seq<string>, text: string, i: nat): (r: Option<string>)
    requires i <= |text| && WellOrdered(candidates)
    ensures r.Some? ==> r.value != "" && StartsAt(text, i, r.value)
    ensures r.Some? && |r.value| > 1 ==> forall c :: c in r.value ==> !IsDelimiter(c)
    ensures r.Some? ==> forall k :: 0 <= k < |candidates| && StartsAt(text, i, candidates[k]) ==> |candidates[k]| <= |r.value|
    ensures r.None? ==> forall k :: 0 <= k < |candidates| ==> !StartsAt(text, i, candidates[k])
  {
    if candidates == [] then None
    else if StartsAt(text, i, candidates[0]) then Some(candidates[0])
    else FirstMatch(candidates[1..], text, i)
  }

  /** `n`-character operators, free of parentheses and quotes when `n > 1`. */
  predicate OfLength(candidates: seq<string>, n: nat) {
    && (forall k :: 0 <= k < |candidates| ==> |candidates[k]| == n)
    && (n > 1 ==> forall k, c :: 0 <= k < |candidates| && c in candidates[k] ==> !IsDelimiter(c))
  }

  lemma OperatorLengths()
    ensures OfLength(TRIPLES, 3) && OfLength(DOUBLES, 2) && OfLength(SINGLES, 1)
  {
  }

  lemma OperatorsWellOrdered()
    ensures WellOrdered(Operators())
  {
    OperatorLengths();
    LayersWellOrdered(TRIPLES, DOUBLES, SINGLES);
  }

  lemma LayersWellOrdered(triples: seq<string>, doubles: seq<string>, singles: seq<string>)
    requires OfLength(triples, 3) && OfLength(doubles, 2) && OfLength(singles, 1)
    ensures WellOrdered(triples + doubles + singles)
  {
  }

  function OperatorAt(text: string, i: nat): (r: Option<string>)
    requires i <= |text|
    ensures r.Some? ==> r.value != "" && StartsAt(text, i, r.value)
    ensures r.Some? && |r.value| > 1 ==> forall c :: c in r.value ==> !IsDelimiter(c)
  {
    OperatorsWellOrdered();
    FirstMatch(Operators(), text, i)
  }

  // ---------- tokens ----------

  /** The token at `i`; strings and operators may look past `stop`. */
  function TokenAt(text: string, i: nat, stop: nat): (r: Option<Lexeme>)
    requires i < stop <= |text| && text[i] != ' '
    ensures r.Some? ==> i < r.value.next <= |text| && r.value.token.position == i && r.value.token.kind != END
  {
    var c := text[i];
    if c == '"' then
      var s := ScanString(text, i + 1);
      if s.None? then None
      else Some(Lexeme(Token(STRING, s.value.value, i, s.value.holes), s.value.next, 1 + s.value.nest))
    else if c == '$' then
      var end := IdentEnd(text, i + 1, stop);
      if end == i + 1 then None else Some(Lexeme(Token(VARIABLE, text[i + 1..end], i, []), end, 0))
    else if c == '@' then
      var end := IdentEnd(text, i + 1, stop);
      Some(Lexeme(Token(FORMAT, text[i..end], i, []), end, 0))
    else if IsDigit(c) then
      var end := NumberEnd(text, i, stop);
      Some(Lexeme(Token(NUMBER, text[i..end], i, []), end, 0))
    else if IsIdentStart(c) then
      var end := IdentEnd(text, i, stop);
      Some(Lexeme(Token(IDENT, text[i..end], i, []), end, 0))
    else if c == '.' && i + 1 < stop && IsIdentStart(text[i + 1]) then
      var end := IdentEnd(text, i + 1, stop);
      Some(Lexeme(Token(FIELD, text[i + 1..end], i, []), end, 0))
    else if c == '.' && i + 1 < stop && text[i + 1] == '"' then
      var s := ScanString(text, i + 2);
      if s.None? || s.value.holes != [] then None
      else Some(Lexeme(Token(FIELD, s.value.value, i, []), s.value.next, 1 + s.value.nest))
    else
      var operator := OperatorAt(text, i);
      if operator.None? then None
      else Some(Lexeme(Token(OPERATOR, operator.value, i, []), i + |operator.value|, 0))
  }

  function LexFrom(text: string, i: nat, stop: nat): (r: Option<Lexed>)
    requires i <= |text| && stop <= |text|
    ensures r.Some? ==> |r.value.tokens| == |r.value.ends| > 0 && r.value.tokens[|r.value.tokens| - 1] == Token(END, "", stop, [])
    decreases |text| - i
  {
    if i >= stop then Some(Lexed([Token(END, "", stop, [])], [stop], 0))
    else if text[i] == ' ' then LexFrom(text, i + 1, stop)
    else
      var lexeme := TokenAt(text, i, stop);
      if lexeme.None? then None
      else
        var rest := LexFrom(text, lexeme.value.next, stop);
        if rest.None? then None
        else Some(Lexed([lexeme.value.token] + rest.value.tokens, [lexeme.value.next] + rest.value.ends,
                        Max(lexeme.value.nest, rest.value.nest)))
  }
}
