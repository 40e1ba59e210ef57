/**
 The hole scanner and the lexer never disagree about where an interpolation body ends,
 although neither strings nor operators are cut off at the body's end.
 */
module ScannerAgreement {
  import opened Wrappers
  import opened Lexical

  /** A stretch without quotes or parentheses does not move the scanner's count. */
  lemma {:induction false} ScanSkipsPlain(text: string, i: nat, next: nat, depth: nat)
    requires i <= next <= |text| && depth > 0
    requires forall k :: i <= k < next ==> !IsDelimiter(text[k])
    ensures ScanHole(text, i, depth) == ScanHole(text, next, depth)
    decreases next - i
  {
    if i < next {
      ScanSkipsPlain(text, i + 1, next, depth);
    }
  }

  /** One token at a position the scanner visits leaves the scanner at the token's end. */
  lemma {:induction false} ScanPassesToken(text: string, i: nat, depth: nat, stop: nat) returns (depth': nat)
    requires depth > 0 && i < stop < |text| && text[i] != ' '
    requires ScanHole(text, i, depth).Some? && ScanHole(text, i, depth).value.end == stop
    requires TokenAt(text, i, stop).Some?
    ensures depth' > 0
    ensures var next := TokenAt(text, i, stop).value.next;
            next <= stop && ScanHole(text, next, depth').Some? && ScanHole(text, next, depth').value.end == stop
  {
    depth' := depth;
    var lexeme := TokenAt(text, i, stop).value;
    var next := lexeme.next;
    if text[i] == '"' {
    } else if text[i] == '.' && i + 1 < stop && text[i + 1] == '"' {
      assert ScanHole(text, i, depth) == ScanHole(text, i + 1, depth);
    } else if lexeme.token.kind == OPERATOR {
      assert text[i] == lexeme.token.text[0];
      if |lexeme.token.text| > 1 {
        forall k | i <= k < next ensures !IsDelimiter(text[k]) {
          assert text[k] == lexeme.token.text[k - i] && text[k] in lexeme.token.text;
        }
        ScanSkipsPlain(text, i, next, depth);
      } else if text[i] == '(' {
        depth' := depth + 1;
      } else if text[i] == ')' {
        depth' := depth - 1;
      }
    } else {
      ScanSkipsPlain(text, i, next, depth);
    }
  }

  /** The offset where the text between two tokens starts: the end of the token before, or the span's start. */
  function GapStart(start: nat, ends: seq<nat>, k: nat): nat
    requires k <= |ends|
  {
    if k == 0 then start else ends[k - 1]
  }

  /** Token `k` follows its predecessor after blanks only, inside the span; only the last one is an END. */
  ghost predicate TileAt(text: string, start: nat, stop: nat, lexed: Lexed, k: nat)
    requires k < |lexed.tokens| == |lexed.ends| && stop <= |text|
  {
    var position, gap := lexed.tokens[k].position, GapStart(start, lexed.ends, k);
    && gap <= position <= lexed.ends[k] <= stop
    && (k < |lexed.tokens| - 1 ==> lexed.tokens[k].kind != END && position < lexed.ends[k])
    && (forall j :: gap <= j < position ==> text[j] == ' ')
  }

  /** Tokens and blanks cover `text[start..stop]` exactly. */
  ghost predicate Tiles(text: string, start: nat, stop: nat, lexed: Lexed) {
    var last := |lexed.tokens| - 1;
    && start <= stop <= |text|
    && |lexed.tokens| == |lexed.ends| > 0
    && (forall k :: 0 <= k <= last ==> TileAt(text, start, stop, lexed, k))
    && lexed.tokens[last] == Token(END, "", stop, []) && lexed.ends[last] == stop
  }

  lemma TilesAfterBlank(text: string, i: nat, stop: nat, lexed: Lexed)
    requires i < stop <= |text| && text[i] == ' ' && Tiles(text, i + 1, stop, lexed)
    ensures Tiles(text, i, stop, lexed)
  {
    forall k | 0 <= k < |lexed.tokens| ensures TileAt(text, i, stop, lexed, k) {
      assert TileAt(text, i + 1, stop, lexed, k);
    }
  }

  lemma TilesAfterToken(text: string, i: nat, stop: nat, token: Token, next: nat, nest: nat, rest: Lexed)
    requires i < next && token.position == i && token.kind != END && Tiles(text, next, stop, rest)
    ensures Tiles(text, i, stop, Lexed([token] + rest.tokens, [next] + rest.ends, nest))
  {
    var all := Lexed([token] + rest.tokens, [next] + rest.ends, nest);
    forall k | 0 <= k < |all.tokens| ensures TileAt(text, i, stop, all, k) {
      if k == 0 {
        assert TileAt(text, next, stop, rest, 0);
      } else {
        assert all.tokens[k] == rest.tokens[k - 1] && all.ends[k] == rest.ends[k - 1];
        assert TileAt(text, next, stop, rest, k - 1);
      }
    }
  }

  /** Lexing a scanned hole body stays inside it, whatever its strings and operators look like. */
  lemma {:induction false} HoleTokensStayInside(text: string, i: nat, depth: nat, stop: nat)
    requires i <= stop < |text| && depth > 0
    requires ScanHole(text, i, depth).Some? && ScanHole(text, i, depth).value.end == stop
    requires LexFrom(text, i, stop).Some?
    ensures Tiles(text, i, stop, LexFrom(text, i, stop).value)
    decreases stop - i
  {
    if i == stop {
    } else if text[i] == ' ' {
      assert ScanHole(text, i, depth) == ScanHole(text, i + 1, depth);
      HoleTokensStayInside(text, i + 1, depth, stop);
      TilesAfterBlank(text, i, stop, LexFrom(text, i + 1, stop).value);
    } else {
      var depth' := ScanPassesToken(text, i, depth, stop);
      var lexeme := TokenAt(text, i, stop).value;
      HoleTokensStayInside(text, lexeme.next, depth', stop);
      var rest := LexFrom(text, lexeme.next, stop).value;
      TilesAfterToken(text, i, stop, lexeme.token, lexeme.next, Max(lexeme.nest, rest.nest), rest);
    }
  }

  /** The same of the condition as a whole. */
  lemma {:induction false} ConditionTokensTile(text: string, i: nat)
    requires i <= |text| && LexFrom(text, i, |text|).Some?
    ensures Tiles(text, i, |text|, LexFrom(text, i, |text|).value)
    decreases |text| - i
  {
    if i < |text| && text[i] == ' ' {
      ConditionTokensTile(text, i + 1);
      TilesAfterBlank(text, i, |text|, LexFrom(text, i + 1, |text|).value);
    } else if i < |text| {
      var lexeme := TokenAt(text, i, |text|).value;
      ConditionTokensTile(text, lexeme.next);
      var rest := LexFrom(text, lexeme.next, |text|).value;
      TilesAfterToken(text, i, |text|, lexeme.token, lexeme.next, Max(lexeme.nest, rest.nest), rest);
    }
  }

  // ---------- what the parser may rely on ----------

  /** What the lexer guarantees of a token list: an END at the end only, growing positions, scanned holes. */
  ghost predicate WellLexed(text: string, tokens: seq<Token>) {
    && |tokens| > 0 && tokens[|tokens| - 1].kind == END && tokens[|tokens| - 1].position <= |text|
    && (forall k :: 0 <= k < |tokens| - 1 ==> tokens[k].kind != END)
    && (forall j, k :: 0 <= j < k < |tokens| ==> Before(tokens, j, k))
    && (forall k, h :: 0 <= k < |tokens| - 1 && h in tokens[k].holes ==>
          tokens[k].position < h.start && ScannedHole(text, h) && h.end < tokens[k + 1].position)
  }

  predicate Before(tokens: seq<Token>, j: nat, k: nat)
    requires j < k < |tokens|
  {
    tokens[j].position < tokens[k].position
  }

  /** The stretch of text a token list spans: what nested token lists have less of. */
  ghost function Extent(tokens: seq<Token>): nat {
    if tokens != [] && tokens[0].position < tokens[|tokens| - 1].position then tokens[|tokens| - 1].position - tokens[0].position else 0
  }

  predicate ScannedHole(text: string, h: Hole) {
    h.start <= |text| && ScanHole(text, h.start, 1).Some? && ScanHole(text, h.start, 1).value.end == h.end
  }

  /** Every hole of a literal was closed by the scanner, inside the literal. */
  lemma {:induction false} LiteralHoles(text: string, i: nat)
    requires i <= |text| && ScanString(text, i).Some?
    ensures forall h :: h in ScanString(text, i).value.holes ==>
              i < h.start && ScannedHole(text, h) && h.end < ScanString(text, i).value.next
    decreases |text| - i
  {
    if text[i] == '"' {
    } else if text[i] != '\\' {
      LiteralHoles(text, i + 1);
    } else if text[i + 1] == '(' {
      LiteralHoles(text, ScanHole(text, i + 2, 1).value.end + 1);
    } else {
      LiteralHoles(text, i + 2);
    }
  }

  predicate HolesInside(text: string, token: Token, end: nat) {
    forall h :: h in token.holes ==> token.position < h.start && ScannedHole(text, h) && h.end < end
  }

  lemma {:induction false} LexedHoles(text: string, i: nat, stop: nat)
    requires i <= |text| && stop <= |text| && LexFrom(text, i, stop).Some?
    ensures var l := LexFrom(text, i, stop).value;
            forall k :: 0 <= k < |l.tokens| ==> HolesInside(text, l.tokens[k], l.ends[k])
    decreases |text| - i
  {
    if i < stop && text[i] == ' ' {
      LexedHoles(text, i + 1, stop);
    } else if i < stop {
      var lexeme := TokenAt(text, i, stop).value;
      if text[i] == '"' {
        LiteralHoles(text, i + 1);
      }
      LexedHoles(text, lexeme.next, stop);
    }
  }

  lemma {:induction false} TiledPositions(text: string, start: nat, stop: nat, lexed: Lexed, j: nat, k: nat)
    requires Tiles(text, start, stop, lexed) && j < k < |lexed.tokens|
    ensures lexed.tokens[j].position < lexed.ends[j] <= lexed.tokens[k].position
    decreases k - j
  {
    assert TileAt(text, start, stop, lexed, k) && TileAt(text, start, stop, lexed, k - 1);
    if j + 1 < k {
      TiledPositions(text, start, stop, lexed, j, k - 1);
    }
  }

  lemma TiledIsWellLexed(text: string, start: nat, stop: nat, l: Lexed)
    requires Tiles(text, start, stop, l)
    requires forall k :: 0 <= k < |l.tokens| ==> HolesInside(text, l.tokens[k], l.ends[k])
    ensures WellLexed(text, l.tokens)
  {
    var last := |l.tokens| - 1;
    forall j, k | 0 <= j < k <= last ensures Before(l.tokens, j, k) {
      TiledPositions(text, start, stop, l, j, k);
    }
    forall k | 0 <= k < last ensures l.tokens[k].kind != END && l.ends[k] <= l.tokens[k + 1].position {
      assert TileAt(text, start, stop, l, k);
      TiledPositions(text, start, stop, l, k, k + 1);
    }
    forall k, h | 0 <= k < last && h in l.tokens[k].holes
      ensures l.tokens[k].position < h.start && ScannedHole(text, h) && h.end < l.tokens[k + 1].position
    {
      assert HolesInside(text, l.tokens[k], l.ends[k]);
    }
  }

  /** A hole body that lexes gives the parser a well-formed list inside the hole. */
  lemma HoleWellLexed(text: string, h: Hole)
    requires ScannedHole(text, h) && LexFrom(text, h.start, h.end).Some?
    ensures var tokens := LexFrom(text, h.start, h.end).value.tokens;
            WellLexed(text, tokens) && Extent(tokens) <= h.end - h.start
  {
    HoleTokensStayInside(text, h.start, 1, h.end);
    LexedHoles(text, h.start, h.end);
    TiledIsWellLexed(text, h.start, h.end, LexFrom(text, h.start, h.end).value);
    assert TileAt(text, h.start, h.end, LexFrom(text, h.start, h.end).value, 0);
  }

  lemma HoleInside(text: string, tokens: seq<Token>, i: nat, h: Hole)
    requires WellLexed(text, tokens) && i < |tokens| - 1 && h in tokens[i].holes
    ensures ScannedHole(text, h) && h.end - h.start + 1 < Extent(tokens)
  {
    assert i > 0 ==> Before(tokens, 0, i);
    assert i + 1 < |tokens| - 1 ==> Before(tokens, i + 1, |tokens| - 1);
  }

  lemma ConditionWellLexed(text: string)
    requires LexFrom(text, 0, |text|).Some?
    ensures WellLexed(text, LexFrom(text, 0, |text|).value.tokens)
  {
    ConditionTokensTile(text, 0);
    LexedHoles(text, 0, |text|);
    TiledIsWellLexed(text, 0, |text|, LexFrom(text, 0, |text|).value);
  }
}
