/** The one canonical form of a request path, and the segment-aware prefix test on it. */
module PathCanon {
  import opened Wrappers

  predicate HexDigit(c: char) {
    '0' <= c <= '9' || 'A' <= c <= 'F' || 'a' <= c <= 'f'
  }

  predicate EscapeAt(s: string, i: nat) {
    i + 2 < |s| && s[i] == '%' && HexDigit(s[i + 1]) && HexDigit(s[i + 2])
  }

  predicate Unservable(c: char) {
    c == '\\' || c < ' ' || c == '\U{7F}'
  }

  predicate WellFormed(s: string) {
    && (forall i :: 0 <= i < |s| ==> !EscapeAt(s, i))
    && (forall i :: 0 <= i < |s| ==> !Unservable(s[i]))
  }

  /** The pieces between slashes; always at least one. */
  function Split(s: string): (pieces: seq<string>)
    ensures pieces != []
  {
    if s == "" then [""]
    else
      var rest := Split(s[1..]);
      if s[0] == '/' then [""] + rest else [[s[0]] + rest[0]] + rest[1..]
  }

  function Join(segments: seq<string>): string {
    if segments == [] then ""
    else if |segments| == 1 then segments[0]
    else segments[0] + "/" + Join(segments[1..])
  }

  function PathOf(segments: seq<string>): string {
    "/" + Join(segments)
  }

  /** One piece taken onto the stack of segments resolved so far. */
  function Push(stack: seq<string>, piece: string): seq<string> {
    if piece == "" || piece == "." then stack
    else if piece != ".." then stack + [piece]
    else if stack == [] then []
    else stack[..|stack| - 1]
  }

  function Resolve(stack: seq<string>, pieces: seq<string>): seq<string>
    decreases |pieces|
  {
    if pieces == [] then stack else Resolve(Push(stack, pieces[0]), pieces[1..])
  }

  function Segments(path: string): seq<string> {
    Resolve([], Split(path))
  }

  function Canonicalize(path: string): Result<string> {
    if WellFormed(path) then Ok(PathOf(Segments(path))) else Refused
  }

  predicate UnderPrefix(path: string, prefix: string) {
    path == prefix || prefix + "/" <= path
  }

  method CanonicalizePath(path: string) returns (canonical: Result<string>)
    ensures canonical == Canonicalize(path)
  {
    for i := 0 to |path|
      invariant forall k :: 0 <= k < i ==> !EscapeAt(path, k)
    {
      if EscapeAt(path, i) {
        return Refused;
      }
    }
    for i := 0 to |path|
      invariant forall k :: 0 <= k < i ==> !Unservable(path[k])
    {
      if Unservable(path[i]) {
        return Refused;
      }
    }
    var pieces := Split(path);
    var segments: seq<string> := [];
    for i := 0 to |pieces|
      invariant Resolve(segments, pieces[i..]) == Resolve([], pieces)
    {
      var segment := pieces[i];
      assert pieces[i..][1..] == pieces[i + 1..];
      if segment == "" || segment == "." {
        continue;
      }
      if segment == ".." {
        if segments != [] {
          segments := segments[..|segments| - 1];
        }
        continue;
      }
      segments := segments + [segment];
    }
    canonical := Ok(PathOf(segments));
  }

  // What the resolution means: a normal form under the rules of dot segments.

  /** A segment that stands for itself. */
  predicate Plain(segment: string) {
    segment != "" && segment != "." && segment != ".." && '/' !in segment
  }

  ghost predicate AllPlain(segments: seq<string>) {
    forall i :: 0 <= i < |segments| ==> Plain(segments[i])
  }

  lemma {:induction false} ResolveConcat(stack: seq<string>, a: seq<string>, b: seq<string>)
    ensures Resolve(stack, a + b) == Resolve(Resolve(stack, a), b)
    decreases |a|
  {
    if a == [] {
      assert a + b == b;
    } else {
      assert (a + b)[1..] == a[1..] + b;
      ResolveConcat(Push(stack, a[0]), a[1..], b);
    }
  }

  lemma {:induction false} ResolvePlain(stack: seq<string>, segments: seq<string>)
    requires AllPlain(segments)
    ensures Resolve(stack, segments) == stack + segments
    decreases |segments|
  {
    if segments != [] {
      ResolvePlain(stack + [segments[0]], segments[1..]);
      assert stack + segments == stack + [segments[0]] + segments[1..];
    }
  }

  /** The rules that fix the resolution of any pieces: empty and dot pieces are dropped, a dot-dot takes the
    * plain segment before it away or, at the root, nothing, and plain segments are kept as they stand. */
  lemma ResolutionRules(before: seq<string>, segment: string, after: seq<string>)
    requires Plain(segment)
    ensures Resolve([], before + [""] + after) == Resolve([], before + after)
    ensures Resolve([], before + ["."] + after) == Resolve([], before + after)
    ensures Resolve([], before + [segment, ".."] + after) == Resolve([], before + after)
    ensures Resolve([], [".."] + after) == Resolve([], after)
    ensures AllPlain(after) ==> Resolve([], after) == after
  {
    forall middle: seq<string>
      ensures Resolve([], before + middle + after) == Resolve(Resolve(Resolve([], before), middle), after)
    {
      ResolveConcat([], before + middle, after);
      ResolveConcat([], before, middle);
    }
    ResolveConcat([], before, after);
    var stack := Resolve([], before);
    assert Resolve(stack, [""]) == Push(stack, "") == stack;
    assert Resolve(stack, ["."]) == Push(stack, ".") == stack;
    var pushed := stack + [segment];
    assert [segment, ".."][1..] == [".."];
    assert Resolve(stack, [segment, ".."]) == Resolve(pushed, [".."]) == Push(pushed, "..");
    assert pushed[..|pushed| - 1] == stack;
    assert ([".."] + after)[1..] == after;
    if AllPlain(after) {
      ResolvePlain([], after);
    }
  }

  lemma {:induction false} SplitHasNoSlash(s: string)
    ensures forall i :: 0 <= i < |Split(s)| ==> '/' !in Split(s)[i]
  {
    if s != "" {
      SplitHasNoSlash(s[1..]);
    }
  }

  lemma {:induction false} ResolvedArePlain(stack: seq<string>, pieces: seq<string>)
    requires AllPlain(stack) && forall i :: 0 <= i < |pieces| ==> '/' !in pieces[i]
    ensures AllPlain(Resolve(stack, pieces))
    decreases |pieces|
  {
    if pieces != [] {
      ResolvedArePlain(Push(stack, pieces[0]), pieces[1..]);
    }
  }

  lemma SegmentsArePlain(path: string)
    ensures AllPlain(Segments(path))
  {
    SplitHasNoSlash(path);
    ResolvedArePlain([], Split(path));
  }

  lemma {:induction false} SplitPrefixed(head: string, s: string)
    requires '/' !in head
    ensures Split(head + s) == [head + Split(s)[0]] + Split(s)[1..]
  {
    if head == "" {
      assert head + s == s && head + Split(s)[0] == Split(s)[0];
      assert Split(s) == [Split(s)[0]] + Split(s)[1..];
    } else {
      assert head[0] != '/' && (head + s)[1..] == head[1..] + s;
      SplitPrefixed(head[1..], s);
      assert [head[0]] + (head[1..] + Split(s)[0]) == head + Split(s)[0];
    }
  }

  /** Splitting undoes joining. */
  lemma {:induction false} SplitJoin(segments: seq<string>)
    requires segments != [] && AllPlain(segments)
    ensures Split(Join(segments)) == segments
  {
    if |segments| == 1 {
      SplitPrefixed(segments[0], "");
      assert segments[0] + "" == segments[0] == Join(segments);
      assert Split(Join(segments)) == [segments[0]] == segments;
    } else {
      SplitJoin(segments[1..]);
      var rest := "/" + Join(segments[1..]);
      assert rest[1..] == Join(segments[1..]);
      SplitPrefixed(segments[0], rest);
      assert Join(segments) == segments[0] + rest;
      assert segments[0] + "" == segments[0];
      assert Split(rest) == [""] + segments[1..];
      assert Split(Join(segments)) == [segments[0]] + segments[1..];
    }
  }

  /** The segments of a path written from plain segments are those segments. */
  lemma SegmentsOfPath(segments: seq<string>)
    requires AllPlain(segments)
    ensures Segments(PathOf(segments)) == segments
  {
    var path := PathOf(segments);
    assert path[1..] == Join(segments);
    if segments == [] {
      assert Split(path) == ["", ""];
      assert Resolve([], ["", ""]) == Resolve([], [""]) == [];
    } else {
      SplitJoin(segments);
      assert Split(path) == [""] + segments;
      assert Split(path)[1..] == segments;
      ResolvePlain([], segments);
    }
  }

  // Canonicalizing keeps a path well formed: an escape never straddles a slash.

  lemma {:induction false} PiecesWellFormed(s: string)
    requires WellFormed(s)
    ensures forall i :: 0 <= i < |Split(s)| ==> WellFormed(Split(s)[i])
    ensures Split(s)[0] <= s
  {
    if s != "" {
      var rest := s[1..];
      forall i | 0 <= i < |rest|
        ensures !EscapeAt(rest, i) && !Unservable(rest[i])
      {
        assert !EscapeAt(s, i + 1);
      }
      PiecesWellFormed(rest);
      var first := Split(s)[0];
      if s[0] != '/' {
        assert first == [s[0]] + Split(rest)[0] && s == [s[0]] + rest;
        forall i | 0 <= i < |first|
          ensures !EscapeAt(first, i) && !Unservable(first[i])
        {
          assert !EscapeAt(s, i);
        }
      } else {
        assert first == "";
      }
    }
  }

  lemma {:induction false} ResolvedWellFormed(stack: seq<string>, pieces: seq<string>)
    requires forall i :: 0 <= i < |stack| ==> WellFormed(stack[i])
    requires forall i :: 0 <= i < |pieces| ==> WellFormed(pieces[i])
    ensures forall i :: 0 <= i < |Resolve(stack, pieces)| ==> WellFormed(Resolve(stack, pieces)[i])
    decreases |pieces|
  {
    if pieces != [] {
      ResolvedWellFormed(Push(stack, pieces[0]), pieces[1..]);
    }
  }

  lemma SlashKeepsWellFormed(a: string, b: string)
    requires WellFormed(a) && WellFormed(b)
    ensures WellFormed(a + "/" + b)
  {
    var s := a + "/" + b;
    forall i | 0 <= i < |s|
      ensures !EscapeAt(s, i) && !Unservable(s[i])
    {
      if i < |a| {
        assert !EscapeAt(a, i) && !Unservable(a[i]);
      } else if i > |a| {
        assert !EscapeAt(b, i - |a| - 1) && !Unservable(b[i - |a| - 1]);
      }
    }
  }

  lemma {:induction false} JoinWellFormed(segments: seq<string>)
    requires forall i :: 0 <= i < |segments| ==> WellFormed(segments[i])
    ensures WellFormed(Join(segments))
  {
    if |segments| > 1 {
      JoinWellFormed(segments[1..]);
      SlashKeepsWellFormed(segments[0], Join(segments[1..]));
    }
  }

  lemma PathWellFormed(segments: seq<string>)
    requires forall i :: 0 <= i < |segments| ==> WellFormed(segments[i])
    ensures WellFormed(PathOf(segments))
  {
    JoinWellFormed(segments);
    SlashKeepsWellFormed("", Join(segments));
    assert "" + "/" + Join(segments) == PathOf(segments);
  }

  // The promises of the canonical form.

  predicate IsCanonical(path: string) {
    Canonicalize(path) == Ok(path)
  }

  /** A path is canonical exactly when it is well formed and written from plain segments. */
  lemma CanonicalForm(path: string, segments: seq<string>)
    requires AllPlain(segments) && path == PathOf(segments)
    ensures IsCanonical(path) <==> WellFormed(path)
  {
    SegmentsOfPath(segments);
  }

  /** Canonicalization is idempotent. */
  lemma CanonicalIsIdempotent(path: string)
    requires Canonicalize(path).Ok?
    ensures IsCanonical(Canonicalize(path).value)
    ensures Segments(Canonicalize(path).value) == Segments(path)
  {
    PiecesWellFormed(path);
    ResolvedWellFormed([], Split(path));
    PathWellFormed(Segments(path));
    SegmentsArePlain(path);
    SegmentsOfPath(Segments(path));
  }

  /** A trailing slash makes no difference to the canonical form. */
  lemma TrailingSlashIsDropped(path: string)
    ensures Canonicalize(path + "/") == Canonicalize(path)
  {
    var slashed := path + "/";
    if WellFormed(path) {
      SlashKeepsWellFormed(path, "");
      assert path + "/" + "" == slashed;
    }
    if WellFormed(slashed) {
      forall i | 0 <= i < |path|
        ensures !EscapeAt(path, i) && !Unservable(path[i])
      {
        assert !EscapeAt(slashed, i) && !Unservable(slashed[i]);
      }
    }
    SplitSlashed(path);
    ResolveConcat([], Split(path), [""]);
  }

  lemma {:induction false} SplitSlashed(path: string)
    ensures Split(path + "/") == Split(path) + [""]
  {
    if path == "" {
      assert path + "/" == "/";
      assert "/"[1..] == "";
    } else {
      assert (path + "/")[1..] == path[1..] + "/";
      SplitSlashed(path[1..]);
    }
  }

  lemma {:induction false} JoinPrefix(a: seq<string>, b: seq<string>)
    requires a != [] && b != []
    ensures Join(a + b) == Join(a) + "/" + Join(b)
  {
    if |a| == 1 {
      assert (a + b)[1..] == b;
    } else {
      assert (a + b)[1..] == a[1..] + b;
      JoinPrefix(a[1..], b);
    }
  }

  lemma LongerPathIsUnderPrefix(prefix: seq<string>, rest: seq<string>)
    requires prefix != [] && rest != []
    ensures PathOf(prefix) + "/" <= PathOf(prefix + rest)
  {
    JoinPrefix(prefix, rest);
    assert PathOf(prefix + rest) == PathOf(prefix) + "/" + Join(rest);
  }

  lemma SplitUnderPrefix(p: string, q: string)
    requires q + "/" <= p
    ensures Split(q) <= Split(p) && |Split(q)| < |Split(p)|
  {
    var tail := p[|q| + 1..];
    assert p == q + "/" + tail;
    SlashSplits(q, tail);
  }

  lemma UnderPrefixTakesSegments(path: seq<string>, prefix: seq<string>)
    requires AllPlain(path) && AllPlain(prefix) && prefix != []
    requires PathOf(prefix) + "/" <= PathOf(path)
    ensures prefix <= path
  {
    SplitUnderPrefix(PathOf(path), PathOf(prefix));
    SegmentsSplit(path);
    SegmentsSplit(prefix);
    PrefixAfterHead("", prefix, if path == [] then [""] else path);
  }

  lemma PrefixAfterHead(head: string, a: seq<string>, b: seq<string>)
    requires [head] + a <= [head] + b
    ensures a <= b
  {
    assert a == ([head] + a)[1..] && b == ([head] + b)[1..];
  }

  /** On canonical paths the prefix test is the prefix order on segments, for any prefix but the root. */
  lemma UnderPrefixIsSegmentPrefix(path: seq<string>, prefix: seq<string>)
    requires AllPlain(path) && AllPlain(prefix) && prefix != []
    ensures UnderPrefix(PathOf(path), PathOf(prefix)) <==> prefix <= path
  {
    if prefix <= path && prefix != path {
      LongerPathIsUnderPrefix(prefix, path[|prefix|..]);
      assert path == prefix + path[|prefix|..];
    } else if PathOf(prefix) + "/" <= PathOf(path) {
      UnderPrefixTakesSegments(path, prefix);
    } else if PathOf(path) == PathOf(prefix) {
      SegmentsOfPath(path);
      SegmentsOfPath(prefix);
    }
  }

  lemma SegmentsSplit(segments: seq<string>)
    requires AllPlain(segments)
    ensures Split(PathOf(segments)) == [""] + (if segments == [] then [""] else segments)
  {
    assert PathOf(segments)[1..] == Join(segments);
    if segments != [] {
      SplitJoin(segments);
    }
  }

  lemma {:induction false} SlashSplits(a: string, b: string)
    ensures Split(a + "/" + b) == Split(a) + Split(b)
  {
    var s := a + "/" + b;
    if a == "" {
      assert s == "/" + b;
      assert s[1..] == b;
    } else {
      assert s[1..] == a[1..] + "/" + b;
      SlashSplits(a[1..], b);
    }
  }

  /** The root is a prefix of itself only. */
  lemma UnderRoot(path: seq<string>)
    requires AllPlain(path)
    ensures UnderPrefix(PathOf(path), "/") <==> path == []
  {
    if path != [] {
      assert Plain(path[0]);
      assert PathOf(path)[1] == path[0][0];
    }
  }
}
