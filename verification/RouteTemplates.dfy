/** Route templates read as text: what the tool edge substitutes into, and what the route index matches. */
module RouteTemplates {
  import opened Wrappers
  import opened PathCanon

  /** A template read from left to right: characters that stand for themselves, and parameters. */
  datatype Piece = Char(c: char) | Param(name: string, converter: Option<string>)

  const MULTI_SEGMENT := "path"

  /** The first position at or after `i` whose character is in `stops`. */
  function Until(t: string, i: nat, stops: set<char>): (j: nat)
    requires i <= |t|
    ensures i <= j <= |t|
    ensures forall k :: i <= k < j ==> t[k] !in stops
    ensures j < |t| ==> t[j] in stops
    decreases |t| - i
  {
    if i == |t| || t[i] in stops then i else Until(t, i + 1, stops)
  }

  /** The parameter a text opens with, and its length: a brace, a name free of braces and colons, and
    * possibly a colon and a converter. */
  function ParamAt(t: string): (r: Option<(Piece, nat)>)
    requires t != ""
    ensures r.Some? ==> 0 < r.value.1 <= |t|
  {
    if t[0] != '{' then None
    else
      var j := Until(t, 1, {'}', ':'});
      if j == 1 || j == |t| then None
      else if t[j] == '}' then Some((Param(t[1..j], None), j + 1))
      else
        var k := Until(t, j + 1, {'}'});
        if k == j + 1 || k == |t| then None else Some((Param(t[1..j], Some(t[j + 1..k])), k + 1))
  }

  /** The two readings differ in the converters they know: substitution takes any, the matcher only `path`. */
  predicate Known(p: Piece, matching: bool) {
    p.Param? ==> !matching || p.converter.None? || p.converter == Some(MULTI_SEGMENT)
  }

  function Pieces(t: string, matching: bool): seq<Piece>
    decreases |t|
  {
    if t == "" then []
    else
      match ParamAt(t)
      case Some((param, length)) =>
        if Known(param, matching) then [param] + Pieces(t[length..], matching)
        else [Char(t[0])] + Pieces(t[1..], matching)
      case None => [Char(t[0])] + Pieces(t[1..], matching)
  }

  // Substitution.

  predicate UnsafeSegment(s: string) {
    s == "" || s == "." || s == ".."
  }

  /** A value a parameter takes: within one segment unless the converter spans several, and no unsafe one. */
  predicate Fills(p: Piece, value: string)
    requires p.Param?
  {
    && (p.converter == Some(MULTI_SEGMENT) || '/' !in value)
    && forall i :: 0 <= i < |Split(value)| ==> !UnsafeSegment(Split(value)[i])
  }

  function Substitute(pieces: seq<Piece>, arguments: map<string, string>): Result<string> {
    if pieces == [] then Ok("")
    else
      var rest := Substitute(pieces[1..], arguments);
      match pieces[0]
      case Char(c) => if rest.Ok? then Ok([c] + rest.value) else Refused
      case Param(name, _) =>
        if name !in arguments || !Fills(pieces[0], arguments[name]) || rest.Refused? then Refused
        else Ok(arguments[name] + rest.value)
  }

  /** The concrete path of an operation's call. */
  function SynthesizePath(template: string, arguments: map<string, string>): Result<string> {
    Substitute(Pieces(template, false), arguments)
  }

  // Matching.

  predicate ParamMatches(p: Piece, value: string)
    requires p.Param?
  {
    && value != ""
    && (if p.converter == Some(MULTI_SEGMENT) then '\n' !in value else '/' !in value)
  }

  predicate Matches(pieces: seq<Piece>, path: string) {
    if pieces == [] then path == ""
    else
      match pieces[0]
      case Char(c) => path != "" && path[0] == c && Matches(pieces[1..], path[1..])
      case Param(_, _) =>
        exists n :: 0 <= n <= |path| && ParamMatches(pieces[0], path[..n]) && Matches(pieces[1..], path[n..])
  }

  /** Whether a concrete path fully matches a registered template. */
  predicate TemplateMatches(template: string, path: string) {
    Matches(Pieces(template, true), path)
  }

  // Templates whose parameters fill whole segments.

  datatype Segment = Literal(text: string) | One(name: string) | Many(name: string)

  predicate NameChar(c: char) {
    c != '{' && c != '}' && c != ':' && c != '/'
  }

  predicate ParamName(s: string) {
    s != "" && forall i :: 0 <= i < |s| ==> NameChar(s[i])
  }

  predicate Simple(s: Segment) {
    match s
    case Literal(text) => Plain(text) && '{' !in text
    case One(name) => ParamName(name)
    case Many(name) => ParamName(name)
  }

  function Text(s: Segment): string {
    match s
    case Literal(text) => text
    case One(name) => "{" + name + "}"
    case Many(name) => "{" + name + ":" + MULTI_SEGMENT + "}"
  }

  function Texts(segments: seq<Segment>): seq<string> {
    if segments == [] then [] else [Text(segments[0])] + Texts(segments[1..])
  }

  function TemplateOf(segments: seq<Segment>): string {
    PathOf(Texts(segments))
  }

  function Chars(s: string): seq<Piece> {
    if s == "" then [] else [Char(s[0])] + Chars(s[1..])
  }

  function PiecesOf(s: Segment): seq<Piece> {
    match s
    case Literal(text) => Chars(text)
    case One(name) => [Param(name, None)]
    case Many(name) => [Param(name, Some(MULTI_SEGMENT))]
  }

  /** The pieces of a template after its first slash. */
  function JoinedPieces(segments: seq<Segment>): seq<Piece> {
    if segments == [] then []
    else if |segments| == 1 then PiecesOf(segments[0])
    else PiecesOf(segments[0]) + [Char('/')] + JoinedPieces(segments[1..])
  }

  ghost predicate AllSimple(segments: seq<Segment>) {
    forall i :: 0 <= i < |segments| ==> Simple(segments[i])
  }

  lemma {:induction false} UntilIs(t: string, i: nat, j: nat, stops: set<char>)
    requires i <= j < |t| && t[j] in stops
    requires forall k :: i <= k < j ==> t[k] !in stops
    ensures Until(t, i, stops) == j
    decreases j - i
  {
    if i < j {
      UntilIs(t, i + 1, j, stops);
    }
  }

  lemma CharPiece(c: char, rest: string, matching: bool)
    requires c != '{'
    ensures Pieces([c] + rest, matching) == [Char(c)] + Pieces(rest, matching)
  {
    assert ([c] + rest)[1..] == rest;
  }

  lemma ParamPiece(text: string, rest: string, p: Piece, matching: bool)
    requires text != "" && ParamAt(text + rest) == Some((p, |text|)) && Known(p, matching)
    ensures Pieces(text + rest, matching) == [p] + Pieces(rest, matching)
  {
    assert (text + rest)[|text|..] == rest;
  }

  lemma {:induction false} LiteralPieces(text: string, rest: string, matching: bool)
    requires '{' !in text
    ensures Pieces(text + rest, matching) == Chars(text) + Pieces(rest, matching)
  {
    if text == "" {
      assert text + rest == rest;
    } else {
      assert text[0] in text;
      assert text + rest == [text[0]] + (text[1..] + rest);
      CharPiece(text[0], text[1..] + rest, matching);
      LiteralPieces(text[1..], rest, matching);
    }
  }

  predicate NameText(s: string) {
    s != "" && forall i :: 0 <= i < |s| ==> s[i] !in {'}', ':'}
  }

  lemma PlainParamReads(name: string, rest: string)
    requires NameText(name)
    ensures ParamAt(("{" + name + "}") + rest) == Some((Param(name, None), |name| + 2))
  {
    var t := ("{" + name + "}") + rest;
    var j := |name| + 1;
    forall k | 1 <= k < j
      ensures t[k] == name[k - 1]
    {
    }
    assert t[j] == '}';
    UntilIs(t, 1, j, {'}', ':'});
    assert t[1..j] == name;
  }

  lemma ConvertedParamReads(name: string, converter: string, rest: string)
    requires NameText(name) && converter != "" && '}' !in converter
    ensures ParamAt(("{" + name + ":" + converter + "}") + rest) ==
              Some((Param(name, Some(converter)), |name| + |converter| + 3))
  {
    var t := ("{" + name + ":" + converter + "}") + rest;
    var j := |name| + 1;
    var k := j + 1 + |converter|;
    forall m | 1 <= m < j
      ensures t[m] == name[m - 1]
    {
    }
    forall m | j + 1 <= m < k
      ensures t[m] == converter[m - j - 1] && t[m] in converter
    {
    }
    assert t[j] == ':' && t[k] == '}';
    UntilIs(t, 1, j, {'}', ':'});
    UntilIs(t, j + 1, k, {'}'});
    assert t[1..j] == name && t[j + 1..k] == converter;
  }

  lemma SegmentPieces(s: Segment, rest: string, matching: bool)
    requires Simple(s)
    ensures Pieces(Text(s) + rest, matching) == PiecesOf(s) + Pieces(rest, matching)
  {
    match s
    case Literal(text) => LiteralPieces(text, rest, matching);
    case One(name) =>
      PlainParamReads(name, rest);
      ParamPiece(Text(s), rest, Param(name, None), matching);
    case Many(name) =>
      ConvertedParamReads(name, MULTI_SEGMENT, rest);
      ParamPiece(Text(s), rest, Param(name, Some(MULTI_SEGMENT)), matching);
  }

  lemma {:induction false} JoinPieces(segments: seq<Segment>, matching: bool)
    requires AllSimple(segments)
    ensures Pieces(Join(Texts(segments)), matching) == JoinedPieces(segments)
  {
    if |segments| == 1 {
      assert Join(Texts(segments)) == Text(segments[0]) == Text(segments[0]) + "";
      SegmentPieces(segments[0], "", matching);
      assert PiecesOf(segments[0]) + [] == PiecesOf(segments[0]);
    } else if segments != [] {
      var text, rest := Text(segments[0]), Join(Texts(segments[1..]));
      JoinTexts(segments);
      assert text + "/" + rest == text + ("/" + rest);
      SegmentPieces(segments[0], "/" + rest, matching);
      CharPiece('/', rest, matching);
      JoinPieces(segments[1..], matching);
    }
  }

  lemma JoinTexts(segments: seq<Segment>)
    requires |segments| > 1
    ensures Join(Texts(segments)) == Text(segments[0]) + "/" + Join(Texts(segments[1..]))
  {
    assert Texts(segments)[1..] == Texts(segments[1..]);
  }

  /** Both readings of such a template are the same, piece by piece. */
  lemma TemplatePieces(segments: seq<Segment>, matching: bool)
    requires AllSimple(segments)
    ensures Pieces(TemplateOf(segments), matching) == [Char('/')] + JoinedPieces(segments)
  {
    JoinPieces(segments, matching);
    CharPiece('/', Join(Texts(segments)), matching);
  }

  /** Whatever substitution makes of pieces both readings share, matching accepts. */
  lemma {:induction false} SubstitutionMatches(pieces: seq<Piece>, arguments: map<string, string>)
    requires Substitute(pieces, arguments).Ok? && '\n' !in Substitute(pieces, arguments).value
    ensures Matches(pieces, Substitute(pieces, arguments).value)
  {
    if pieces != [] {
      var path, rest := Substitute(pieces, arguments).value, Substitute(pieces[1..], arguments).value;
      if pieces[0].Char? {
        assert path[1..] == rest;
        SubstitutionMatches(pieces[1..], arguments);
      } else {
        var value := arguments[pieces[0].name];
        assert path == value + rest;
        SubstitutionMatches(pieces[1..], arguments);
        assert !UnsafeSegment(Split(value)[0]);
        assert path[..|value|] == value && path[|value|..] == rest;
        assert ParamMatches(pieces[0], path[..|value|]);
      }
    }
  }

  /** The segments a call's path consists of. */
  function Filled(segments: seq<Segment>, arguments: map<string, string>): seq<string> {
    if segments == [] then []
    else
      (match segments[0]
       case Literal(text) => [text]
       case _ => if segments[0].name in arguments then Split(arguments[segments[0].name]) else [])
      + Filled(segments[1..], arguments)
  }

  lemma {:induction false} SubstituteConcat(a: seq<Piece>, b: seq<Piece>, arguments: map<string, string>)
    ensures Substitute(a + b, arguments) ==
              if Substitute(a, arguments).Ok? && Substitute(b, arguments).Ok?
              then Ok(Substitute(a, arguments).value + Substitute(b, arguments).value) else Refused
  {
    if a == [] {
      assert a + b == b;
      assert Substitute(b, arguments).Ok? ==> "" + Substitute(b, arguments).value == Substitute(b, arguments).value;
    } else {
      assert (a + b)[1..] == a[1..] + b;
      SubstituteConcat(a[1..], b, arguments);
      if Substitute(a, arguments).Ok? && Substitute(b, arguments).Ok? {
        var x, y := Substitute(a[1..], arguments).value, Substitute(b, arguments).value;
        if a[0].Char? {
          assert [a[0].c] + (x + y) == ([a[0].c] + x) + y;
        } else {
          assert arguments[a[0].name] + (x + y) == (arguments[a[0].name] + x) + y;
        }
      }
    }
  }

  lemma {:induction false} SubstituteChars(s: string, arguments: map<string, string>)
    ensures Substitute(Chars(s), arguments) == Ok(s)
  {
    if s != "" {
      SubstituteChars(s[1..], arguments);
      assert [s[0]] + s[1..] == s;
    }
  }

  lemma SubstituteParam(p: Piece, arguments: map<string, string>)
    requires p.Param? && Substitute([p], arguments).Ok?
    ensures p.name in arguments && Fills(p, arguments[p.name]) && Substitute([p], arguments) == Ok(arguments[p.name])
  {
    assert [p][1..] == [];
    assert arguments[p.name] + "" == arguments[p.name];
  }

  lemma JoinHead(head: string, first: string, others: seq<string>)
    ensures Join([head + first] + others) == head + Join([first] + others)
  {
    assert ([head + first] + others)[1..] == others;
    assert ([first] + others)[1..] == others;
    if others != [] {
      assert (head + first) + "/" + Join(others) == head + (first + "/" + Join(others));
    }
  }

  lemma {:induction false} JoinOfSplit(s: string)
    ensures Join(Split(s)) == s
  {
    if s != "" {
      var rest := Split(s[1..]);
      JoinOfSplit(s[1..]);
      assert rest == [rest[0]] + rest[1..];
      if s[0] == '/' {
        assert Split(s)[1..] == rest;
        assert Join(Split(s)) == "" + "/" + s[1..];
      } else {
        JoinHead([s[0]], rest[0], rest[1..]);
      }
      assert s == [s[0]] + s[1..];
    }
  }

  /** One segment's substitution is its filled segments, all plain. */
  lemma SegmentFilled(s: Segment, arguments: map<string, string>)
    requires Simple(s) && Substitute(PiecesOf(s), arguments).Ok?
    ensures var filled := Filled([s], arguments);
            filled != [] && AllPlain(filled) && Substitute(PiecesOf(s), arguments).value == Join(filled)
  {
    assert [s][1..] == [];
    match s
    case Literal(text) =>
      SubstituteChars(text, arguments);
      assert Filled([s], arguments) == [text];
    case _ =>
      SubstituteParam(PiecesOf(s)[0], arguments);
      assert Filled([s], arguments) == Split(arguments[s.name]);
      JoinOfSplit(arguments[s.name]);
      SplitHasNoSlash(arguments[s.name]);
  }

  lemma {:induction false} SynthesizedSegments(segments: seq<Segment>, arguments: map<string, string>)
    requires AllSimple(segments) && segments != [] && Substitute(JoinedPieces(segments), arguments).Ok?
    ensures var filled := Filled(segments, arguments);
            filled != [] && AllPlain(filled) && Substitute(JoinedPieces(segments), arguments).value == Join(filled)
  {
    assert Filled([segments[0]], arguments) + Filled(segments[1..], arguments) == Filled(segments, arguments) by {
      assert [segments[0]][1..] == [];
    }
    if |segments| == 1 {
      assert segments == [segments[0]];
      SegmentFilled(segments[0], arguments);
    } else {
      var head, rest := PiecesOf(segments[0]), JoinedPieces(segments[1..]);
      SubstituteConcat(head + [Char('/')], rest, arguments);
      SubstituteConcat(head, [Char('/')], arguments);
      SubstituteChars("/", arguments);
      assert Chars("/") == [Char('/')];
      SegmentFilled(segments[0], arguments);
      SynthesizedSegments(segments[1..], arguments);
      JoinPrefix(Filled([segments[0]], arguments), Filled(segments[1..], arguments));
    }
  }

  /** A path synthesized from a template of whole-segment parameters, unless malformed, is already canonical
    * and matches that template itself: no value can move it to another route's shape. */
  lemma SynthesizedPathsStayOnTheirTemplate(segments: seq<Segment>, arguments: map<string, string>)
    requires AllSimple(segments)
    requires SynthesizePath(TemplateOf(segments), arguments).Ok?
    requires Canonicalize(SynthesizePath(TemplateOf(segments), arguments).value).Ok?
    ensures IsCanonical(SynthesizePath(TemplateOf(segments), arguments).value)
    ensures TemplateMatches(TemplateOf(segments), SynthesizePath(TemplateOf(segments), arguments).value)
  {
    var path := SynthesizePath(TemplateOf(segments), arguments).value;
    TemplatePieces(segments, false);
    TemplatePieces(segments, true);
    assert '\n' !in path;
    SubstitutionMatches([Char('/')] + JoinedPieces(segments), arguments);
    SubstituteConcat([Char('/')], JoinedPieces(segments), arguments);
    SubstituteChars("/", arguments);
    assert Chars("/") == [Char('/')];
    if segments == [] {
      assert path == PathOf([]);
      CanonicalForm(path, []);
    } else {
      SynthesizedSegments(segments, arguments);
      CanonicalForm(path, Filled(segments, arguments));
    }
  }

  // Converters the matcher does not know.

  /** A brace left over in the matcher's reading of a template is literal text, so no path without one matches. */
  lemma {:induction false} LeftoverBracesNeverMatch(pieces: seq<Piece>, path: string)
    requires Char('{') in pieces && '{' !in path
    ensures !Matches(pieces, path)
  {
    if pieces[0] != Char('{') {
      assert pieces == [pieces[0]] + pieces[1..];
      forall n | 0 <= n <= |path|
        ensures !Matches(pieces[1..], path[n..])
      {
        LeftoverBracesNeverMatch(pieces[1..], path[n..]);
      }
    }
  }

  /** A parameter with a name and a converter, as text. */
  function Converted(name: string, converter: string): string {
    "{" + name + ":" + converter + "}"
  }

  /** The text holds a converted parameter at `i`: its colon at `colon`, its closing brace at `end`, and neither a
    * colon nor a closing brace before them. */
  ghost predicate HoldsConverted(t: string, i: nat, colon: nat, end: nat, converter: string) {
    && i < colon < end < |t|
    && t[colon] == ':' && t[end] == '}' && t[colon + 1..end] == converter
    && (forall k :: i <= k < end ==> t[k] != '}')
  }

  lemma ConvertedText(t: string, before: string, name: string, converter: string, after: string)
    requires t == before + Converted(name, converter) + after && NameText(name) && '}' !in converter
    ensures HoldsConverted(t, |before|, |before| + 1 + |name|, |before| + 2 + |name| + |converter|, converter)
  {
    var i, text := |before|, Converted(name, converter);
    var colon := i + 1 + |name|;
    var end := colon + 1 + |converter|;
    assert forall k :: 0 <= k < |text| ==> t[i + k] == text[k];
    forall k | i <= k < end
      ensures t[k] != '}'
    {
      if i < k < colon {
        assert t[k] == text[k - i] == name[k - i - 1];
      } else if colon < k {
        assert t[k] == text[k - i] == converter[k - colon - 1];
        assert t[k] in converter;
      }
    }
    assert t[colon] == text[1 + |name|] && t[end] == text[|text| - 1];
    assert t[colon + 1..end] == converter;
  }

  /** A parameter that opens before such a one and reads past its start takes in the whole of it, colon and all, so
    * its own converter is unknown too. */
  lemma SwallowedConverterIsUnknown(t: string, i: nat, colon: nat, end: nat, converter: string)
    requires HoldsConverted(t, i, colon, end, converter) && i > 0 && converter != MULTI_SEGMENT
    requires ParamAt(t).Some? && ParamAt(t).value.1 > i
    ensures !Known(ParamAt(t).value.0, true)
  {
    var j := Until(t, 1, {'}', ':'});
    assert j <= colon;
    assert t[j] == ':';
    var k := Until(t, j + 1, {'}'});
    assert k == end;
    if j < colon {
      assert t[j + 1..k][colon - j - 1] == ':';
      assert ':' !in MULTI_SEGMENT;
    }
  }

  /** How many characters the first piece of the matcher's reading takes. */
  function FirstLength(t: string): (n: nat)
    requires t != ""
    ensures 0 < n <= |t|
  {
    match ParamAt(t)
    case Some((param, length)) => if Known(param, true) then length else 1
    case None => 1
  }

  lemma LaterBracesRemain(t: string)
    requires t != "" && Char('{') in Pieces(t[FirstLength(t)..], true)
    ensures Char('{') in Pieces(t, true)
  {
  }

  lemma FirstBraceRemains(t: string)
    requires t != "" && t[0] == '{' && (ParamAt(t).Some? ==> !Known(ParamAt(t).value.0, true))
    ensures Char('{') in Pieces(t, true)
  {
  }

  lemma {:induction false} UnknownConverterLeavesABrace(t: string, before: string, name: string, converter: string,
                                                        after: string)
    requires t == before + Converted(name, converter) + after
    requires NameText(name) && converter != "" && '}' !in converter && converter != MULTI_SEGMENT
    ensures Char('{') in Pieces(t, true)
    decreases |before|
  {
    if before == "" {
      assert t == Converted(name, converter) + after && t[0] == '{';
      ConvertedParamReads(name, converter, after);
      FirstBraceRemains(t);
    } else if ParamAt(t).Some? && ParamAt(t).value.1 > |before| {
      ConvertedText(t, before, name, converter, after);
      SwallowedConverterIsUnknown(t, |before|, |before| + 1 + |name|, |before| + 2 + |name| + |converter|, converter);
      FirstBraceRemains(t);
    } else {
      var n := FirstLength(t);
      assert t[n..] == before[n..] + Converted(name, converter) + after;
      UnknownConverterLeavesABrace(t[n..], before[n..], name, converter, after);
      LaterBracesRemain(t);
    }
  }

  /** So a template with a converter other than `path` anywhere in it matches no path without braces: in particular
    * none synthesized from it. */
  lemma UnknownConvertersNeverMatch(before: string, name: string, converter: string, after: string, path: string)
    requires NameText(name) && converter != "" && '}' !in converter && converter != MULTI_SEGMENT
    requires '{' !in path
    ensures !TemplateMatches(before + Converted(name, converter) + after, path)
  {
    UnknownConverterLeavesABrace(before + Converted(name, converter) + after, before, name, converter, after);
    LeftoverBracesNeverMatch(Pieces(before + Converted(name, converter) + after, true), path);
  }
  /** The matcher knows every parameter that substitution finds in the template. */
  ghost predicate SharedReading(t: string) {
    forall p :: p in Pieces(t, false) ==> Known(p, true)
  }

  /** The readings are the same exactly when no parameter has a converter other than `path`; otherwise the matcher is
    * left with a literal brace. */
  lemma {:induction false} Readings(t: string)
    ensures SharedReading(t) <==> Pieces(t, true) == Pieces(t, false)
    ensures SharedReading(t) || Char('{') in Pieces(t, true)
    decreases |t|
  {
    if t != "" {
      var n := if ParamAt(t).Some? then ParamAt(t).value.1 else 1;
      var filled, matched := Pieces(t, false), Pieces(t, true);
      assert filled == [filled[0]] + Pieces(t[n..], false);
      Readings(t[n..]);
      if Known(filled[0], true) {
        assert matched == [filled[0]] + Pieces(t[n..], true);
        assert matched[1..] == Pieces(t[n..], true) && filled[1..] == Pieces(t[n..], false);
      } else {
        assert filled[0] in filled && matched[0] == Char('{');
      }
    }
  }

  /** A call's path matches the template it was made from exactly when the readings are the same, for any template and
    * arguments that make a path without braces and line ends. */
  lemma SynthesizedPathsMatch(t: string, arguments: map<string, string>)
    requires SynthesizePath(t, arguments).Ok?
    requires '{' !in SynthesizePath(t, arguments).value && '\n' !in SynthesizePath(t, arguments).value
    ensures TemplateMatches(t, SynthesizePath(t, arguments).value) <==> SharedReading(t)
  {
    Readings(t);
    if SharedReading(t) {
      SubstitutionMatches(Pieces(t, false), arguments);
    } else {
      LeftoverBracesNeverMatch(Pieces(t, true), SynthesizePath(t, arguments).value);
    }
  }

  lemma {:induction false} CharsMatch(s: string)
    ensures Matches(Chars(s), s)
  {
    if s != "" {
      CharsMatch(s[1..]);
    }
  }

  /** A parameter with an unknown converter by itself: one piece to substitution, its own characters to the matcher. */
  lemma ConvertedReadings(name: string, converter: string)
    requires NameText(name) && converter != "" && '}' !in converter && converter != MULTI_SEGMENT
    requires '{' !in name + ":" + converter + "}"
    ensures Pieces(Converted(name, converter), false) == [Param(name, Some(converter))]
    ensures Pieces(Converted(name, converter), true) == Chars(Converted(name, converter))
  {
    var text, rest := Converted(name, converter), name + ":" + converter + "}";
    ConvertedParamReads(name, converter, "");
    assert text + "" == text && text[|text|..] == "" && text[1..] == rest && rest + "" == rest;
    LiteralPieces(rest, "", true);
    assert Chars(rest) + [] == Chars(rest);
  }

  lemma SlashedFill(p: Piece, value: string)
    requires p.Param? && value != "" && '/' !in value && value != "." && value != ".."
    ensures Substitute([Char('/'), p], map[p.name := value]) == Ok("/" + value)
  {
    assert Join([value]) == value;
    SplitJoin([value]);
    assert [Char('/'), p][1..] == [p] && [p][1..] == [];
    assert Fills(p, value);
    assert value + "" == value;
    assert Substitute([p], map[p.name := value]) == Ok(value);
  }

  /** A template that is one such parameter after the slash: a value can spell the template out, and the path with that
    * brace in it does match. */
  lemma BracesSpellTheTemplate(name: string, converter: string)
    requires NameText(name) && converter != "" && '}' !in converter && converter != MULTI_SEGMENT
    requires '{' !in name + ":" + converter + "}" && '/' !in Converted(name, converter)
    ensures var t := "/" + Converted(name, converter);
            !SharedReading(t) && TemplateMatches(t, t) &&
            SynthesizePath(t, map[name := Converted(name, converter)]) == Ok(t)
  {
    var text, p := Converted(name, converter), Param(name, Some(converter));
    ConvertedReadings(name, converter);
    CharPiece('/', text, false);
    CharPiece('/', text, true);
    assert Pieces("/" + text, false) == [Char('/'), p];
    assert p in Pieces("/" + text, false);
    SlashedFill(p, text);
    assert ("/" + text)[1..] == text;
    assert Pieces("/" + text, true) == Chars("/" + text);
    CharsMatch("/" + text);
  }
}
