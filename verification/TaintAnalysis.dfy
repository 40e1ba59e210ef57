/** The information-flow rule: which expressions may still carry the whole auth context. */
module TaintAnalysis {
  import opened Wrappers
  import opened ConditionAst

  datatype Taint = ROOT | SAFE

  datatype Scope = Scope(subject: Taint, variables: map<string, Taint>)

  predicate IsSafe(r: Result<Taint>) {
    r == Ok(SAFE)
  }

  function Join(left: Taint, right: Taint): Taint {
    if left.SAFE? && right.SAFE? then SAFE else ROOT
  }

  function TaintOf(n: Node, scope: Scope): Result<Taint>
    decreases n, 0
  {
    match n
    case Root(_) => Ok(scope.subject)
    case Constant(_) => Ok(SAFE)
    case String(_, _, interpolations) =>
      if AllSafe(interpolations, scope) then Ok(SAFE) else Refused
    case Variable(_, name) =>
      if name in scope.variables then Ok(scope.variables[name]) else Refused
    case Projection(_, source, suffixes) =>
      var taint := TaintOf(source, scope);
      if taint.Refused? then Refused else SuffixTaint(taint.value, suffixes, scope)
    case Call(_, _, arguments) =>
      if scope.subject.ROOT? then Refused
      else if AllSafe(arguments, Scope(SAFE, scope.variables)) then Ok(SAFE) else Refused
    case Binary(_, operator, left, right) =>
      var l := TaintOf(left, scope);
      if l.Refused? then Refused
      else if operator == "|" then TaintOf(right, Scope(l.value, scope.variables))
      else
        var r := TaintOf(right, scope);
        if r.Refused? then Refused
        else if operator == "," || operator == "//" then Ok(Join(l.value, r.value))
        else if l.value.SAFE? && r.value.SAFE? then Ok(SAFE) else Refused
    case Negate(_, operand) =>
      if IsSafe(TaintOf(operand, scope)) then Ok(SAFE) else Refused
    case Bind(_, source, variable, body) =>
      var taint := TaintOf(source, scope);
      if taint.Refused? then Refused
      else TaintOf(body, Scope(scope.subject, scope.variables[variable := taint.value]))
    case Try(_, body, handler) =>
      var taint := TaintOf(body, scope);
      if taint.Refused? || handler.None? then taint
      else
        var handled := TaintOf(handler.value, Scope(ROOT, scope.variables));
        if handled.Refused? then Refused else Ok(Join(taint.value, handled.value))
    case ObjectConstruction(_, values) =>
      if AllSafe(values, scope) then Ok(SAFE) else Refused
    case ArrayConstruction(_, element) =>
      if element.None? || IsSafe(TaintOf(element.value, scope)) then Ok(SAFE) else Refused
  }

  predicate AllSafe(nodes: seq<Node>, scope: Scope)
    decreases nodes, 0
  {
    nodes != [] ==> IsSafe(TaintOf(nodes[0], scope)) && AllSafe(nodes[1..], scope)
  }

  /** The taint after `suffixes` are applied to a value of taint `taint`. */
  function SuffixTaint(taint: Taint, suffixes: seq<Suffix>, scope: Scope): Result<Taint>
    decreases suffixes, 0
  {
    if suffixes == [] then Ok(taint)
    else if taint.SAFE? then
      if SuffixKeySafe(suffixes[0], scope) then SuffixTaint(SAFE, suffixes[1..], scope) else Refused
    else
      match StaticName(suffixes[0])
      case None => Refused
      case Some(name) =>
        if name == IDENTITY_FIELD then
          if |suffixes| == 2 && StaticName(suffixes[1]) == Some(OWNER_USER_ID_CLAIM) then Ok(SAFE) else Refused
        else SuffixTaint(SAFE, suffixes[1..], scope)
  }

  predicate SuffixKeySafe(suffix: Suffix, scope: Scope)
    decreases suffix, 0
  {
    suffix.Index? && suffix.key.Some? ==> IsSafe(TaintOf(suffix.key.value, scope))
  }

  /** The suffix walk as the scan runs it: one pass with the taint of the chain so far. */
  method WalkProjection(n: Node, scope: Scope) returns (result: Result<Taint>)
    requires n.Projection?
    ensures result == TaintOf(n, scope)
  {
    var start := TaintOf(n.source, scope);
    if start.Refused? {
      return Refused;
    }
    var taint, suffixes, position := start.value, n.suffixes, 0;
    while position < |suffixes|
      invariant 0 <= position <= |suffixes|
      invariant TaintOf(n, scope) == SuffixTaint(taint, suffixes[position..], scope)
    {
      var suffix := suffixes[position];
      assert suffixes[position..][1..] == suffixes[position + 1..];
      if taint.SAFE? {
        if !SuffixKeySafe(suffix, scope) {
          return Refused;
        }
        position := position + 1;
        continue;
      }
      var name := StaticName(suffix);
      if name.None? {
        return Refused;
      }
      if name.value == IDENTITY_FIELD {
        var remaining := suffixes[position + 1..];
        if |remaining| != 1 || StaticName(remaining[0]) != Some(OWNER_USER_ID_CLAIM) {
          return Refused;
        }
        return Ok(SAFE);
      }
      taint := SAFE;
      position := position + 1;
    }
    return Ok(taint);
  }

  /** The gate on a parsed condition: its result may not carry the context. */
  predicate AssertSafe(n: Node) {
    IsSafe(TaintOf(n, Scope(ROOT, map[])))
  }
  // What the rule does not refuse.

  /** Every variable is bound, by the tree or by `bound`, and no error is handled. */
  predicate Closed(n: Node, bound: set<string>)
    decreases n, 0
  {
    match n
    case Root(_) | Constant(_) => true
    case String(_, _, parts) => AllClosed(parts, bound)
    case Variable(_, name) => name in bound
    case Projection(_, source, suffixes) => Closed(source, bound) && SuffixesClosed(suffixes, bound)
    case Call(_, _, arguments) => AllClosed(arguments, bound)
    case Binary(_, _, left, right) => Closed(left, bound) && Closed(right, bound)
    case Negate(_, operand) => Closed(operand, bound)
    case Bind(_, source, variable, body) => Closed(source, bound) && Closed(body, bound + {variable})
    case Try(_, body, handler) => Closed(body, bound) && handler.None?
    case ObjectConstruction(_, values) => AllClosed(values, bound)
    case ArrayConstruction(_, element) => element.Some? ==> Closed(element.value, bound)
  }

  predicate AllClosed(nodes: seq<Node>, bound: set<string>)
    decreases nodes, 0
  {
    nodes != [] ==> Closed(nodes[0], bound) && AllClosed(nodes[1..], bound)
  }

  predicate SuffixesClosed(suffixes: seq<Suffix>, bound: set<string>)
    decreases suffixes, 0
  {
    suffixes != [] ==> SuffixClosed(suffixes[0], bound) && SuffixesClosed(suffixes[1..], bound)
  }

  predicate SuffixClosed(suffix: Suffix, bound: set<string>)
    decreases suffix, 0
  {
    suffix.Index? && suffix.key.Some? ==> Closed(suffix.key.value, bound)
  }

  /** A scope in which the context is out of reach. */
  predicate Clear(scope: Scope) {
    scope.subject.SAFE? && forall name :: name in scope.variables ==> scope.variables[name].SAFE?
  }

  /** Past the context nothing is refused: such a tree, whatever its operators and builtins, is safe. */
  lemma {:induction false} ClosedIsSafe(n: Node, scope: Scope)
    requires Clear(scope) && Closed(n, scope.variables.Keys)
    ensures TaintOf(n, scope) == Ok(SAFE)
    decreases n, 0
  {
    match n
    case String(_, _, parts) => AllClosedAreSafe(parts, scope);
    case Projection(_, source, suffixes) =>
      ClosedIsSafe(source, scope);
      ClosedSuffixesAreSafe(suffixes, scope);
    case Call(_, _, arguments) =>
      assert Scope(SAFE, scope.variables) == scope;
      AllClosedAreSafe(arguments, scope);
    case Binary(_, _, left, right) =>
      assert Scope(SAFE, scope.variables) == scope;
      ClosedIsSafe(left, scope);
      ClosedIsSafe(right, scope);
    case Negate(_, operand) => ClosedIsSafe(operand, scope);
    case Bind(_, source, variable, body) =>
      ClosedIsSafe(source, scope);
      assert scope.variables[variable := SAFE].Keys == scope.variables.Keys + {variable};
      ClosedIsSafe(body, Scope(scope.subject, scope.variables[variable := SAFE]));
    case Try(_, body, _) => ClosedIsSafe(body, scope);
    case ObjectConstruction(_, values) => AllClosedAreSafe(values, scope);
    case ArrayConstruction(_, element) =>
      if element.Some? {
        ClosedIsSafe(element.value, scope);
      }
    case _ =>
  }

  lemma {:induction false} AllClosedAreSafe(nodes: seq<Node>, scope: Scope)
    requires Clear(scope) && AllClosed(nodes, scope.variables.Keys)
    ensures AllSafe(nodes, scope)
    decreases nodes, 0
  {
    if nodes != [] {
      ClosedIsSafe(nodes[0], scope);
      AllClosedAreSafe(nodes[1..], scope);
    }
  }

  lemma {:induction false} ClosedSuffixesAreSafe(suffixes: seq<Suffix>, scope: Scope)
    requires Clear(scope) && SuffixesClosed(suffixes, scope.variables.Keys)
    ensures SuffixTaint(SAFE, suffixes, scope) == Ok(SAFE)
    decreases suffixes, 0
  {
    if suffixes != [] {
      ClosedSuffixIsSafe(suffixes[0], scope);
      ClosedSuffixesAreSafe(suffixes[1..], scope);
    }
  }

  lemma {:induction false} ClosedSuffixIsSafe(suffix: Suffix, scope: Scope)
    requires Clear(scope) && SuffixClosed(suffix, scope.variables.Keys)
    ensures SuffixKeySafe(suffix, scope)
    decreases suffix, 0
  {
    if suffix.Index? && suffix.key.Some? {
      ClosedIsSafe(suffix.key.value, scope);
    }
  }

  /** A suffix that evaluates nothing for its key. */
  predicate Keyless(suffix: Suffix) {
    suffix.Index? && suffix.key.Some? ==> StaticName(suffix).Some?
  }

  /** A read of the context by a field other than `identity`, or of the owner reference and no further. */
  predicate SafeRead(n: Node) {
    && n.Projection? && n.source.Root? && n.suffixes != [] && StaticName(n.suffixes[0]).Some?
    && if StaticName(n.suffixes[0]) == Some("identity")
       then |n.suffixes| == 2 && StaticName(n.suffixes[1]) == Some("owner_user_id")
       else forall i :: 0 < i < |n.suffixes| ==> Keyless(n.suffixes[i])
  }

  /** A tree that reaches the context through such reads alone, and pipes nothing else into what follows. */
  predicate Careful(n: Node, bound: set<string>)
    decreases n
  {
    SafeRead(n) ||
    match n
    case Constant(_) => true
    case Variable(_, name) => name in bound
    case String(_, _, parts) => parts == []
    case Binary(_, operator, left, right) =>
      Careful(left, bound) && if operator == "|" then Closed(right, bound) else Careful(right, bound)
    case Negate(_, operand) => Careful(operand, bound)
    case Bind(_, source, variable, body) => Careful(source, bound) && Careful(body, bound + {variable})
    case Try(_, body, handler) => Careful(body, bound) && handler.None?
    case ArrayConstruction(_, element) => element.Some? ==> Careful(element.value, bound)
    case _ => false
  }

  /** Every such condition is accepted. */
  lemma {:induction false} CarefulIsAccepted(n: Node, variables: map<string, Taint>)
    requires Clear(Scope(SAFE, variables)) && Careful(n, variables.Keys)
    ensures TaintOf(n, Scope(ROOT, variables)) == Ok(SAFE)
    decreases n
  {
    var scope := Scope(ROOT, variables);
    if SafeRead(n) {
      SafeReadIsSafe(n, variables);
    } else {
      match n
      case Binary(_, operator, left, right) =>
        CarefulIsAccepted(left, variables);
        if operator == "|" {
          ClosedIsSafe(right, Scope(SAFE, variables));
        } else {
          CarefulIsAccepted(right, variables);
        }
      case Negate(_, operand) => CarefulIsAccepted(operand, variables);
      case Bind(_, source, variable, body) =>
        CarefulIsAccepted(source, variables);
        assert variables[variable := SAFE].Keys == variables.Keys + {variable};
        CarefulIsAccepted(body, variables[variable := SAFE]);
      case Try(_, body, _) => CarefulIsAccepted(body, variables);
      case ArrayConstruction(_, element) =>
        if element.Some? {
          CarefulIsAccepted(element.value, variables);
        }
      case _ =>
    }
  }

  lemma SafeReadIsSafe(n: Node, variables: map<string, Taint>)
    requires SafeRead(n)
    ensures TaintOf(n, Scope(ROOT, variables)) == Ok(SAFE)
  {
    assert TaintOf(n, Scope(ROOT, variables)) == SuffixTaint(ROOT, n.suffixes, Scope(ROOT, variables));
    if StaticName(n.suffixes[0]) != Some("identity") {
      KeylessStaySafe(n.suffixes[1..], Scope(ROOT, variables));
    }
  }

  lemma {:induction false} KeylessStaySafe(suffixes: seq<Suffix>, scope: Scope)
    requires forall i :: 0 <= i < |suffixes| ==> Keyless(suffixes[i])
    ensures SuffixTaint(SAFE, suffixes, scope) == Ok(SAFE)
  {
    if suffixes != [] {
      assert SuffixKeySafe(suffixes[0], scope);
      KeylessStaySafe(suffixes[1..], scope);
    }
  }
}
