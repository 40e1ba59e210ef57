/** A sample string for a route pattern, built from the pattern's syntax tree, against the pattern's language. */
module RegexSampler {
  import opened Wrappers

  datatype Category = Digit | Word | Space | NotDigit | NotWord | NotSpace | UnknownCategory

  datatype Member = MLiteral(c: char) | MRange(lo: char, hi: char) | MCategory(category: Category) | MOther

  datatype Alternative = Alternative(body: seq<Node>)

  datatype Node =
    | Literal(c: char)
    | NotLiteral(c: char)
    | AnyChar
    | In(negated: bool, members: seq<Member>)
    | Repeat(min: nat, max: Option<nat>, body: seq<Node>)
    | Group(body: seq<Node>)
    | Branch(alternatives: seq<Alternative>)
    | Anchor
    | InCategory(category: Category)
    | Range(lo: char, hi: char)
    | Other

  const NEGATE_CANDIDATES := "abcdefghijkxyz0123456789-_"

  // The classes of characters. Beyond ASCII they are the engine's own.

  type Classes = (Category, char) -> bool

  predicate InBase(category: Category, c: char, classes: Classes)
    requires category in {Digit, Word, Space}
  {
    if c > '~' then classes(category, c)
    else
      match category
      case Digit => '0' <= c <= '9'
      case Word => '0' <= c <= '9' || 'a' <= c <= 'z' || 'A' <= c <= 'Z' || c == '_'
      case Space => c == ' ' || '\t' <= c <= '\r' || '\U{1C}' <= c <= '\U{1F}'
  }

  /** Membership as the sampler tests it: an unknown category holds nothing. */
  predicate CategoryMatches(category: Category, c: char, classes: Classes) {
    match category
    case Digit => InBase(Digit, c, classes)
    case Word => InBase(Word, c, classes)
    case Space => InBase(Space, c, classes)
    case NotDigit => !InBase(Digit, c, classes)
    case NotWord => !InBase(Word, c, classes)
    case NotSpace => !InBase(Space, c, classes)
    case UnknownCategory => false
  }

  function CategorySample(category: Category): Option<char> {
    match category
    case Digit => Some('1')
    case Word => Some('a')
    case Space => Some(' ')
    case NotDigit => Some('a')
    case NotWord => Some('-')
    case NotSpace => Some('x')
    case UnknownCategory => None
  }

  predicate MemberMatches(m: Member, c: char, classes: Classes) {
    match m
    case MLiteral(l) => c == l
    case MRange(lo, hi) => lo <= c <= hi
    case MCategory(category) => CategoryMatches(category, c, classes)
    case MOther => false
  }

  predicate AnyMemberMatches(members: seq<Member>, c: char, classes: Classes) {
    exists i :: 0 <= i < |members| && MemberMatches(members[i], c, classes)
  }

  // The sampler.

  method FirstMemberChar(members: seq<Member>) returns (c: Option<char>)
    ensures c == MemberSample(members)
  {
    for i := 0 to |members|
      invariant MemberSample(members) == MemberSample(members[i..])
    {
      match members[i] {
        case MLiteral(l) => return Some(l);
        case MRange(lo, _) => return Some(lo);
        case MCategory(category) => return CategorySample(category);
        case MOther =>
      }
      assert members[i..][1..] == members[i + 1..];
    }
    c := None;
  }

  function MemberSample(members: seq<Member>): Option<char> {
    if members == [] then None
    else
      match members[0]
      case MLiteral(c) => Some(c)
      case MRange(lo, _) => Some(lo)
      case MCategory(category) => CategorySample(category)
      case MOther => MemberSample(members[1..])
  }

  function FirstOutside(members: seq<Member>, candidates: string, classes: Classes): Option<char> {
    if candidates == "" then None
    else if !AnyMemberMatches(members, candidates[0], classes) then Some(candidates[0])
    else FirstOutside(members, candidates[1..], classes)
  }

  function EmitIn(negated: bool, members: seq<Member>, classes: Classes): Option<char> {
    if negated then FirstOutside(members, NEGATE_CANDIDATES, classes) else MemberSample(members)
  }

  function Copies(s: string, n: nat): string {
    if n == 0 then "" else s + Copies(s, n - 1)
  }

  function OfChar(c: Option<char>): Option<string> {
    if c.Some? then Some([c.value]) else None
  }

  function EmitNode(n: Node, classes: Classes): Option<string>
    decreases n, 1, 0
  {
    match n
    case Literal(c) => Some([c])
    case NotLiteral(c) => Some(if c != 'a' then "a" else "b")
    case AnyChar => Some("x")
    case In(negated, members) => OfChar(EmitIn(negated, members, classes))
    case Repeat(min, _, body) =>
      var sub := EmitSeq(body, classes);
      if sub.None? then None else Some(Copies(sub.value, if min > 0 then min else 1))
    case Group(body) => EmitSeq(body, classes)
    case Branch(_) => EmitFirst(n, 0, classes)
    case Anchor => Some("")
    case InCategory(category) => OfChar(CategorySample(category))
    case Range(lo, _) => Some([lo])
    case Other => None
  }

  function EmitSeq(nodes: seq<Node>, classes: Classes): Option<string>
    decreases nodes, 2, 0
  {
    if nodes == [] then Some("")
    else
      var head, rest := EmitNode(nodes[0], classes), EmitSeq(nodes[1..], classes);
      if head.None? || rest.None? then None else Some(head.value + rest.value)
  }

  /** The first alternative, from `i` on, that has a sample. */
  function EmitFirst(n: Node, i: nat, classes: Classes): Option<string>
    requires n.Branch? && i <= |n.alternatives|
    decreases n, 0, |n.alternatives| - i
  {
    if i == |n.alternatives| then None
    else
      var first := EmitSeq(n.alternatives[i].body, classes);
      if first.Some? then first else EmitFirst(n, i + 1, classes)
  }

  // The language.

  predicate InSet(negated: bool, members: seq<Member>, c: char, classes: Classes) {
    if negated then !AnyMemberMatches(members, c, classes) else AnyMemberMatches(members, c, classes)
  }

  /** Whether a node matches all of `s`; an anchor or an opcode outside the fragment matches nothing here. */
  ghost predicate Accepts(n: Node, s: string, classes: Classes)
    decreases n, 0
  {
    match n
    case Literal(c) => s == [c]
    case NotLiteral(c) => |s| == 1 && s[0] != c
    case AnyChar => |s| == 1 && s[0] != '\n'
    case In(negated, members) => |s| == 1 && InSet(negated, members, s[0], classes)
    case Repeat(min, max, body) =>
      exists parts: seq<string> ::
        && min <= |parts| && (max.Some? ==> |parts| <= max.value)
        && s == Flat(parts) && forall i :: 0 <= i < |parts| ==> AcceptsSeq(body, parts[i], classes)
    case Group(body) => AcceptsSeq(body, s, classes)
    case Branch(alternatives) => exists i :: 0 <= i < |alternatives| && AcceptsSeq(alternatives[i].body, s, classes)
    case Anchor => false
    case InCategory(category) => |s| == 1 && CategoryMatches(category, s[0], classes)
    case Range(lo, hi) => |s| == 1 && lo <= s[0] <= hi
    case Other => false
  }

  ghost predicate AcceptsSeq(nodes: seq<Node>, s: string, classes: Classes)
    decreases nodes, 1
  {
    if nodes == [] then s == ""
    else exists n :: 0 <= n <= |s| && Accepts(nodes[0], s[..n], classes) && AcceptsSeq(nodes[1..], s[n..], classes)
  }

  function Flat(parts: seq<string>): string {
    if parts == [] then "" else parts[0] + Flat(parts[1..])
  }

  // The fragment: no anchors, flags or unknown categories, and repeats that can repeat once.

  predicate MemberSupported(m: Member) {
    match m
    case MRange(lo, hi) => lo <= hi
    case MCategory(category) => !category.UnknownCategory?
    case MOther => false
    case MLiteral(_) => true
  }

  predicate Supported(n: Node)
    decreases n, 0
  {
    match n
    case In(_, members) => forall i :: 0 <= i < |members| ==> MemberSupported(members[i])
    case Repeat(min, max, body) => (max.Some? ==> min <= max.value && 1 <= max.value) && AllSupported(body)
    case Group(body) => AllSupported(body)
    case Branch(alternatives) => forall i :: 0 <= i < |alternatives| ==> AllSupported(alternatives[i].body)
    case Anchor => false
    case InCategory(category) => !category.UnknownCategory?
    case Range(lo, hi) => lo <= hi
    case _ => true
  }

  predicate AllSupported(nodes: seq<Node>)
    decreases nodes, 1
  {
    forall i :: 0 <= i < |nodes| ==> Supported(nodes[i])
  }

  lemma CategorySampleMatches(category: Category, classes: Classes)
    requires !category.UnknownCategory?
    ensures CategorySample(category).Some? && CategoryMatches(category, CategorySample(category).value, classes)
  {
  }

  lemma MemberSampleMatches(members: seq<Member>, classes: Classes)
    requires members != [] && MemberSupported(members[0])
    ensures MemberSample(members).Some? && AnyMemberMatches(members, MemberSample(members).value, classes)
  {
    if members[0].MCategory? {
      CategorySampleMatches(members[0].category, classes);
    }
    assert MemberMatches(members[0], MemberSample(members).value, classes);
  }

  lemma {:induction false} OutsideIsOutside(members: seq<Member>, candidates: string, classes: Classes)
    ensures var c := FirstOutside(members, candidates, classes); c.Some? ==> !AnyMemberMatches(members, c.value, classes)
  {
    if candidates != "" {
      OutsideIsOutside(members, candidates[1..], classes);
    }
  }

  lemma {:induction false} CopiesSplit(s: string, n: nat) returns (parts: seq<string>)
    ensures |parts| == n && Flat(parts) == Copies(s, n)
    ensures forall i :: 0 <= i < n ==> parts[i] == s
  {
    if n == 0 {
      parts := [];
    } else {
      var rest := CopiesSplit(s, n - 1);
      parts := [s] + rest;
      assert parts[1..] == rest;
    }
  }

  lemma {:induction false} NodeSampleAccepted(n: Node, classes: Classes)
    requires Supported(n) && EmitNode(n, classes).Some?
    ensures Accepts(n, EmitNode(n, classes).value, classes)
    decreases n, 1, 0
  {
    match n
    case In(negated, members) =>
      if negated {
        OutsideIsOutside(members, NEGATE_CANDIDATES, classes);
      } else {
        MemberSampleMatches(members, classes);
      }
    case Repeat(min, max, body) =>
      SeqSampleAccepted(body, classes);
      var sub := EmitSeq(body, classes).value;
      var parts := CopiesSplit(sub, if min > 0 then min else 1);
      assert forall i :: 0 <= i < |parts| ==> AcceptsSeq(body, parts[i], classes);
    case Group(body) => SeqSampleAccepted(body, classes);
    case Branch(_) => BranchSampleAccepted(n, 0, classes);
    case InCategory(category) => CategorySampleMatches(category, classes);
    case _ =>
  }

  /** Whatever the sampler emits for a pattern of the fragment, the pattern accepts. */
  lemma {:induction false} SeqSampleAccepted(nodes: seq<Node>, classes: Classes)
    requires AllSupported(nodes) && EmitSeq(nodes, classes).Some?
    ensures AcceptsSeq(nodes, EmitSeq(nodes, classes).value, classes)
    decreases nodes, 2, 0
  {
    if nodes != [] {
      var head, rest := EmitNode(nodes[0], classes).value, EmitSeq(nodes[1..], classes).value;
      NodeSampleAccepted(nodes[0], classes);
      SeqSampleAccepted(nodes[1..], classes);
      var s := head + rest;
      assert s[..|head|] == head && s[|head|..] == rest;
    }
  }

  lemma {:induction false} BranchSampleAccepted(n: Node, i: nat, classes: Classes)
    requires n.Branch? && Supported(n) && i <= |n.alternatives| && EmitFirst(n, i, classes).Some?
    ensures Accepts(n, EmitFirst(n, i, classes).value, classes)
    decreases n, 0, |n.alternatives| - i
  {
    if EmitSeq(n.alternatives[i].body, classes).Some? {
      SeqSampleAccepted(n.alternatives[i].body, classes);
    } else {
      BranchSampleAccepted(n, i + 1, classes);
    }
  }

  /** The final full match: a sample is used only if the pattern accepts it, and in the fragment it always is. */
  ghost function SamplePath(nodes: seq<Node>, classes: Classes): Option<string> {
    var sample := EmitSeq(nodes, classes);
    if sample.Some? && AcceptsSeq(nodes, sample.value, classes) then sample else None
  }

  lemma FullMatchNeverRejects(nodes: seq<Node>, classes: Classes)
    requires AllSupported(nodes)
    ensures SamplePath(nodes, classes) == EmitSeq(nodes, classes)
  {
    if EmitSeq(nodes, classes).Some? {
      SeqSampleAccepted(nodes, classes);
    }
  }

  /** A repeat that may not repeat at all is sampled once all the same: its sample is its body's, and the pattern
    * accepts that exactly when it is empty. */
  lemma EmptyRepeatsAreMissampled(body: seq<Node>, classes: Classes)
    requires EmitSeq(body, classes).Some?
    ensures var node := Repeat(0, Some(0), body);
            && EmitNode(node, classes) == EmitSeq(body, classes)
            && (Accepts(node, EmitNode(node, classes).value, classes) <==> EmitSeq(body, classes).value == "")
  {
    var node, sub := Repeat(0, Some(0), body), EmitSeq(body, classes).value;
    assert Copies(sub, 1) == sub + Copies(sub, 0) == sub;
    if sub == "" {
      var parts: seq<string> := [];
      assert Flat(parts) == sub;
    }
  }
}
