/** An accepted condition evaluates the same whatever the identity claims hold beyond the owner. */
module NonInterference {
  import opened Wrappers
  import opened ConditionAst
  import opened JqEvaluation
  import opened TaintAnalysis

  /** Two contexts that read alike through every field but `identity`, and through `.identity.owner_user_id`. */
  predicate SameContext(g: Engine, a: Value, b: Value) {
    && a.Obj? && b.Obj?
    && (forall name :: name in a.fields.Keys + b.fields.Keys && name != IDENTITY_FIELD ==>
          Get(a.fields, name) == Get(b.fields, name))
    && Lookup(g, Get(a.fields, IDENTITY_FIELD), Str(OWNER_USER_ID_CLAIM))
       == Lookup(g, Get(b.fields, IDENTITY_FIELD), Str(OWNER_USER_ID_CLAIM))
  }

  predicate Related(g: Engine, taint: Taint, a: Value, b: Value) {
    a == b || (taint.ROOT? && SameContext(g, a, b))
  }

  predicate AllRelated(g: Engine, taint: Taint, a: seq<Value>, b: seq<Value>) {
    |a| == |b| && forall i :: 0 <= i < |a| ==> Related(g, taint, a[i], b[i])
  }

  /** Errors are equal at either taint: they end up in a handler's input. */
  predicate StreamsRelated(g: Engine, taint: Taint, s: Stream, t: Stream) {
    AllRelated(g, taint, s.values, t.values) && s.error == t.error
  }

  predicate EnvsRelated(g: Engine, variables: map<string, Taint>, a: Env, b: Env) {
    variables.Keys <= a.Keys * b.Keys
    && forall name :: name in variables ==> Related(g, variables[name], a[name], b[name])
  }

  lemma SafeStreamsEqual(g: Engine, s: Stream, t: Stream)
    requires StreamsRelated(g, SAFE, s, t)
    ensures s == t
  {
    assert s.values == t.values;
  }

  lemma ChainRelated(g: Engine, taint: Taint, s: Stream, s': Stream, t: Stream, t': Stream)
    requires StreamsRelated(g, taint, s, s')
    requires s.error.None? ==> StreamsRelated(g, taint, t, t')
    ensures StreamsRelated(g, taint, Chain(s, t), Chain(s', t'))
  {
  }

  lemma Widened(g: Engine, taint: Taint, other: Taint, s: Stream, t: Stream)
    requires StreamsRelated(g, taint, s, t)
    ensures StreamsRelated(g, Join(taint, other), s, t)
    ensures StreamsRelated(g, Join(other, taint), s, t)
  {
  }

  // ---------- the rule for `//` ----------

  lemma TruthyRelated(g: Engine, taint: Taint, a: seq<Value>, b: seq<Value>)
    requires AllRelated(g, taint, a, b)
    ensures AllRelated(g, taint, TruthyOf(a), TruthyOf(b))
  {
    if a != [] {
      TruthyRelated(g, taint, a[1..], b[1..]);
    }
  }

  // ---------- projection of the context ----------

  /** A statically named suffix, whatever its spelling, is a lookup of that name. */
  lemma StaticSuffix(g: Engine, s: Stream, suffix: Suffix, env: Env, input: Value)
    requires StaticName(suffix).Some?
    ensures ApplySuffix(g, s, suffix, env, input) == LookupAll(g, s, Str(StaticName(suffix).value))
  {
    if suffix.Index? {
      var key := Str(StaticName(suffix).value);
      assert Eval(g, suffix.key.value, env, input) == Stream([key], None);
      assert LookupCross(g, s, [key]) == Chain(LookupAll(g, s, key), Stream([], None));
    }
  }

  lemma NamedLookup(g: Engine, a: Value, b: Value, name: string)
    requires Related(g, ROOT, a, b) && name != IDENTITY_FIELD
    ensures Lookup(g, a, Str(name)) == Lookup(g, b, Str(name))
  {
    if a != b && name !in a.fields.Keys + b.fields.Keys {
      assert Get(a.fields, name) == Get(b.fields, name);
    }
  }

  lemma NamedLookups(g: Engine, a: seq<Value>, b: seq<Value>, name: string)
    requires AllRelated(g, ROOT, a, b) && name != IDENTITY_FIELD
    ensures LookupEach(g, a, Str(name)) == LookupEach(g, b, Str(name))
  {
    if a != [] {
      NamedLookup(g, a[0], b[0], name);
      NamedLookups(g, a[1..], b[1..], name);
    }
  }

  /** The owner reference over related contexts, with any error of either lookup. */
  lemma OwnerLookups(g: Engine, a: seq<Value>, b: seq<Value>)
    requires AllRelated(g, ROOT, a, b)
    ensures var s, t := LookupEach(g, a, Str(IDENTITY_FIELD)), LookupEach(g, b, Str(IDENTITY_FIELD));
            s.error == t.error &&
            LookupEach(g, s.values, Str(OWNER_USER_ID_CLAIM)) == LookupEach(g, t.values, Str(OWNER_USER_ID_CLAIM))
  {
    if a != [] {
      OwnerLookups(g, a[1..], b[1..]);
      var name := Str(IDENTITY_FIELD);
      LookupChain(g, One(Lookup(g, a[0], name)), LookupEach(g, a[1..], name), Str(OWNER_USER_ID_CLAIM));
      LookupChain(g, One(Lookup(g, b[0], name)), LookupEach(g, b[1..], name), Str(OWNER_USER_ID_CLAIM));
    }
  }

  /** Reading the owner reference through two suffixes. */
  lemma OwnerReference(g: Engine, s: Stream, t: Stream)
    requires StreamsRelated(g, ROOT, s, t)
    ensures LookupAll(g, LookupAll(g, s, Str(IDENTITY_FIELD)), Str(OWNER_USER_ID_CLAIM))
            == LookupAll(g, LookupAll(g, t, Str(IDENTITY_FIELD)), Str(OWNER_USER_ID_CLAIM))
  {
    OwnerLookups(g, s.values, t.values);
    var s1, t1 := LookupEach(g, s.values, Str(IDENTITY_FIELD)), LookupEach(g, t.values, Str(IDENTITY_FIELD));
    assert s1.values + [] == s1.values && t1.values + [] == t1.values;
  }

  lemma LookupChain(g: Engine, s: Stream, t: Stream, key: Value)
    ensures s.error.None? ==>
      LookupEach(g, Chain(s, t).values, key) == Chain(LookupEach(g, s.values, key), LookupEach(g, t.values, key))
    decreases |s.values|
  {
    if s.values == [] {
      assert s.values + t.values == t.values;
      assert [] + LookupEach(g, t.values, key).values == LookupEach(g, t.values, key).values;
    } else if s.error.None? {
      var rest := Stream(s.values[1..], None);
      LookupChain(g, rest, t, key);
      assert (s.values + t.values)[1..] == s.values[1..] + t.values;
      ChainAssociates(One(Lookup(g, s.values[0], key)), LookupEach(g, rest.values, key), LookupEach(g, t.values, key));
    }
  }

  lemma ChainAssociates(a: Stream, b: Stream, c: Stream)
    ensures Chain(Chain(a, b), c) == Chain(a, Chain(b, c))
  {
    assert (a.values + b.values) + c.values == a.values + (b.values + c.values);
  }

  /** A chain whose taint is decided gives streams related by that taint. */
  lemma {:induction false} SuffixesSound(g: Engine, s: Stream, t: Stream, suffixes: seq<Suffix>, taint: Taint,
                                         scope: Scope, env: Env, env': Env, input: Value, input': Value)
    requires SuffixTaint(taint, suffixes, scope).Ok?
    requires StreamsRelated(g, taint, s, t)
    requires EnvsRelated(g, scope.variables, env, env') && Related(g, scope.subject, input, input')
    ensures StreamsRelated(g, SuffixTaint(taint, suffixes, scope).value,
                           ApplySuffixes(g, s, suffixes, env, input), ApplySuffixes(g, t, suffixes, env', input'))
    decreases suffixes, 0
  {
    if suffixes != [] {
      var head, rest := suffixes[0], suffixes[1..];
      var s1, t1 := ApplySuffix(g, s, head, env, input), ApplySuffix(g, t, head, env', input');
      if taint.SAFE? {
        SafeStreamsEqual(g, s, t);
        SuffixSound(g, s, head, scope, env, env', input, input');
        SuffixesSound(g, s1, t1, rest, SAFE, scope, env, env', input, input');
      } else {
        var name := StaticName(head).value;
        StaticSuffix(g, s, head, env, input);
        StaticSuffix(g, t, head, env', input');
        if name == IDENTITY_FIELD {
          assert rest == [suffixes[1]];
          StaticSuffix(g, s1, suffixes[1], env, input);
          StaticSuffix(g, t1, suffixes[1], env', input');
          OwnerReference(g, s, t);
          assert ApplySuffixes(g, s1, rest, env, input) == ApplySuffix(g, s1, suffixes[1], env, input);
          assert ApplySuffixes(g, t1, rest, env', input') == ApplySuffix(g, t1, suffixes[1], env', input');
        } else {
          NamedLookups(g, s.values, t.values, name);
          SuffixesSound(g, s1, t1, rest, SAFE, scope, env, env', input, input');
        }
      }
    }
  }

  /** Over a safe value a suffix is harmless once its key is safe. */
  lemma {:induction false} SuffixSound(g: Engine, s: Stream, suffix: Suffix, scope: Scope, env: Env, env': Env,
                                       input: Value, input': Value)
    requires SuffixKeySafe(suffix, scope)
    requires EnvsRelated(g, scope.variables, env, env') && Related(g, scope.subject, input, input')
    ensures ApplySuffix(g, s, suffix, env, input) == ApplySuffix(g, s, suffix, env', input')
    decreases suffix, 0
  {
    if suffix.Index? && suffix.key.Some? {
      TaintSound(g, suffix.key.value, scope, env, env', input, input');
      SafeStreamsEqual(g, Eval(g, suffix.key.value, env, input), Eval(g, suffix.key.value, env', input'));
    }
  }

  // ---------- the main induction ----------

  /** The taint of an expression bounds how its streams differ under related contexts. */
  lemma {:induction false} TaintSound(g: Engine, n: Node, scope: Scope, env: Env, env': Env, input: Value, input': Value)
    requires TaintOf(n, scope).Ok?
    requires EnvsRelated(g, scope.variables, env, env') && Related(g, scope.subject, input, input')
    ensures StreamsRelated(g, TaintOf(n, scope).value, Eval(g, n, env, input), Eval(g, n, env', input'))
    decreases n, 1
  {
    match n
    case Root(_) =>
    case Constant(_) =>
    case Variable(_, _) =>
    case String(_, _, interpolations) =>
      RowsSound(g, interpolations, scope, env, env', input, input');
    case Projection(_, source, suffixes) =>
      TaintSound(g, source, scope, env, env', input, input');
      SuffixesSound(g, Eval(g, source, env, input), Eval(g, source, env', input'), suffixes,
                    TaintOf(source, scope).value, scope, env, env', input, input');
    case Call(_, _, _) =>
      CallSound(g, n, scope, env, env', input);
    case Binary(_, operator, left, right) =>
      BinarySound(g, n, scope, env, env', input, input');
    case Negate(_, operand) =>
      TaintSound(g, operand, scope, env, env', input, input');
      SafeStreamsEqual(g, Eval(g, operand, env, input), Eval(g, operand, env', input'));
    case Bind(_, source, variable, body) =>
      TaintSound(g, source, scope, env, env', input, input');
      var taint := TaintOf(source, scope).value;
      var s, s' := Eval(g, source, env, input), Eval(g, source, env', input');
      BoundSound(g, body, variable, taint, scope, env, env', input, input', s.values, s'.values);
    case Try(_, body, handler) =>
      TaintSound(g, body, scope, env, env', input, input');
      var taint := TaintOf(body, scope).value;
      var s, s' := Eval(g, body, env, input), Eval(g, body, env', input');
      if handler.Some? {
        var handled := TaintOf(handler.value, Scope(ROOT, scope.variables)).value;
        Widened(g, taint, handled, s, s');
        if s.error.Some? {
          TaintSound(g, handler.value, Scope(ROOT, scope.variables), env, env', s.error.value, s.error.value);
          Widened(g, handled, taint, Eval(g, handler.value, env, s.error.value), Eval(g, handler.value, env', s.error.value));
        }
      }
    case ObjectConstruction(_, values) =>
      RowsSound(g, values, scope, env, env', input, input');
    case ArrayConstruction(_, element) =>
      if element.Some? {
        TaintSound(g, element.value, scope, env, env', input, input');
        SafeStreamsEqual(g, Eval(g, element.value, env, input), Eval(g, element.value, env', input'));
      }
  }

  lemma {:induction false} BinarySound(g: Engine, n: Node, scope: Scope, env: Env, env': Env, input: Value, input': Value)
    requires n.Binary? && TaintOf(n, scope).Ok?
    requires EnvsRelated(g, scope.variables, env, env') && Related(g, scope.subject, input, input')
    ensures StreamsRelated(g, TaintOf(n, scope).value, Eval(g, n, env, input), Eval(g, n, env', input'))
    decreases n, 0
  {
    var left, right := n.left, n.right;
    TaintSound(g, left, scope, env, env', input, input');
    var l := TaintOf(left, scope).value;
    var s, s' := Eval(g, left, env, input), Eval(g, left, env', input');
    if n.operator == "|" {
      EachSound(g, right, l, scope, env, env', s.values, s'.values);
    } else {
      TaintSound(g, right, scope, env, env', input, input');
      var r := TaintOf(right, scope).value;
      var t, t' := Eval(g, right, env, input), Eval(g, right, env', input');
      if n.operator == "," || n.operator == "//" {
        Widened(g, l, r, s, s');
        Widened(g, r, l, t, t');
        TruthyRelated(g, Join(l, r), s.values, s'.values);
        ChainRelated(g, Join(l, r), s, s', t, t');
      } else {
        SafeStreamsEqual(g, s, s');
        SafeStreamsEqual(g, t, t');
      }
    }
  }

  lemma {:induction false} RowsSound(g: Engine, nodes: seq<Node>, scope: Scope, env: Env, env': Env, input: Value, input': Value)
    requires AllSafe(nodes, scope)
    requires EnvsRelated(g, scope.variables, env, env') && Related(g, scope.subject, input, input')
    ensures EvalRows(g, nodes, env, input) == EvalRows(g, nodes, env', input')
    decreases nodes, 0
  {
    if nodes != [] {
      TaintSound(g, nodes[0], scope, env, env', input, input');
      SafeStreamsEqual(g, Eval(g, nodes[0], env, input), Eval(g, nodes[0], env', input'));
      RowsSound(g, nodes[1..], scope, env, env', input, input');
    }
  }

  /** Running `n` over related inputs: the right side of a pipe, or a filter argument. */
  lemma {:induction false} EachSound(g: Engine, n: Node, taint: Taint, scope: Scope, env: Env, env': Env,
                                     inputs: seq<Value>, inputs': seq<Value>)
    requires TaintOf(n, Scope(taint, scope.variables)).Ok?
    requires EnvsRelated(g, scope.variables, env, env') && AllRelated(g, taint, inputs, inputs')
    ensures StreamsRelated(g, TaintOf(n, Scope(taint, scope.variables)).value,
                           EvalEach(g, n, env, inputs), EvalEach(g, n, env', inputs'))
    decreases n, 2 + |inputs|
  {
    if inputs != [] {
      var out := TaintOf(n, Scope(taint, scope.variables)).value;
      TaintSound(g, n, Scope(taint, scope.variables), env, env', inputs[0], inputs'[0]);
      EachSound(g, n, taint, scope, env, env', inputs[1..], inputs'[1..]);
      ChainRelated(g, out, Eval(g, n, env, inputs[0]), Eval(g, n, env', inputs'[0]),
                   EvalEach(g, n, env, inputs[1..]), EvalEach(g, n, env', inputs'[1..]));
    }
  }

  lemma {:induction false} BoundSound(g: Engine, n: Node, variable: string, taint: Taint, scope: Scope, env: Env, env': Env,
                                      input: Value, input': Value, values: seq<Value>, values': seq<Value>)
    requires var inner := Scope(scope.subject, scope.variables[variable := taint]); TaintOf(n, inner).Ok?
    requires EnvsRelated(g, scope.variables, env, env') && Related(g, scope.subject, input, input')
    requires AllRelated(g, taint, values, values')
    ensures var inner := Scope(scope.subject, scope.variables[variable := taint]);
            StreamsRelated(g, TaintOf(n, inner).value, EvalBound(g, n, variable, env, input, values),
                           EvalBound(g, n, variable, env', input', values'))
    decreases n, 2 + |values|
  {
    if values != [] {
      var inner := Scope(scope.subject, scope.variables[variable := taint]);
      var e, e' := env[variable := values[0]], env'[variable := values'[0]];
      TaintSound(g, n, inner, e, e', input, input');
      BoundSound(g, n, variable, taint, scope, env, env', input, input', values[1..], values'[1..]);
      ChainRelated(g, TaintOf(n, inner).value, Eval(g, n, e, input), Eval(g, n, e', input'),
                   EvalBound(g, n, variable, env, input, values[1..]), EvalBound(g, n, variable, env', input', values'[1..]));
    }
  }

  /** A builtin reads a safe input, so its filter arguments only ever see safe values. */
  lemma {:induction false} CallSound(g: Engine, n: Node, scope: Scope, env: Env, env': Env, input: Value)
    requires n.Call? && AllSafe(n.arguments, Scope(SAFE, scope.variables))
    requires EnvsRelated(g, scope.variables, env, env')
    ensures EvalCall(g, n, env, input) == EvalCall(g, n, env', input)
    decreases n.arguments, 4
  {
    RowsSound(g, n.arguments, Scope(SAFE, scope.variables), env, env', input, input);
    if n.name == "IN" && n.arguments != [] {
      ArgumentSound(g, n, 0, scope, env, env', input);
      ArgumentSound(g, n, |n.arguments| - 1, scope, env, env', input);
    } else if n.name == "any" || n.name == "all" {
      SelectionSound(g, n, scope, env, env', input);
    } else if n.arguments != [] {
      FilterSound(g, n, 0, scope, env, env', Iterate(g, input).values);
    }
  }

  /** `any` and `all`, over the input's elements or a generator's. */
  lemma {:induction false} SelectionSound(g: Engine, n: Node, scope: Scope, env: Env, env': Env, input: Value)
    requires n.Call? && AllSafe(n.arguments, Scope(SAFE, scope.variables)) && (n.name == "any" || n.name == "all")
    requires EnvsRelated(g, scope.variables, env, env')
    ensures EvalCall(g, n, env, input) == EvalCall(g, n, env', input)
    decreases n.arguments, 3
  {
    if n.arguments != [] {
      ArgumentSound(g, n, 0, scope, env, env', input);
      var s := if |n.arguments| == 2 then Eval(g, n.arguments[0], env, input) else Iterate(g, input);
      FilterSound(g, n, |n.arguments| - 1, scope, env, env', s.values);
    }
  }

  lemma {:induction false} ArgumentSound(g: Engine, n: Node, i: nat, scope: Scope, env: Env, env': Env, v: Value)
    requires n.Call? && AllSafe(n.arguments, Scope(SAFE, scope.variables)) && i < |n.arguments|
    requires EnvsRelated(g, scope.variables, env, env')
    ensures Eval(g, n.arguments[i], env, v) == Eval(g, n.arguments[i], env', v)
    decreases n.arguments, 1
  {
    var inner := Scope(SAFE, scope.variables);
    ArgumentSafe(n.arguments, inner, i);
    TaintSound(g, n.arguments[i], inner, env, env', v, v);
    SafeStreamsEqual(g, Eval(g, n.arguments[i], env, v), Eval(g, n.arguments[i], env', v));
  }

  lemma {:induction false} FilterSound(g: Engine, n: Node, i: nat, scope: Scope, env: Env, env': Env, inputs: seq<Value>)
    requires n.Call? && AllSafe(n.arguments, Scope(SAFE, scope.variables)) && i < |n.arguments|
    requires EnvsRelated(g, scope.variables, env, env')
    ensures EvalEach(g, n.arguments[i], env, inputs) == EvalEach(g, n.arguments[i], env', inputs)
    decreases n.arguments, 2, |inputs|
  {
    if inputs != [] {
      ArgumentSound(g, n, i, scope, env, env', inputs[0]);
      FilterSound(g, n, i, scope, env, env', inputs[1..]);
    }
  }

  lemma {:induction false} ArgumentSafe(nodes: seq<Node>, scope: Scope, i: nat)
    requires AllSafe(nodes, scope) && i < |nodes|
    ensures IsSafe(TaintOf(nodes[i], scope))
  {
    if i > 0 {
      ArgumentSafe(nodes[1..], scope, i - 1);
    }
  }

  // ---------- the claim the gate exists for ----------

  /** An accepted condition has one output stream over all contexts that agree outside the claims. */
  lemma AcceptedConditionIgnoresClaims(g: Engine, n: Node, a: Value, b: Value)
    requires AssertSafe(n) && SameContext(g, a, b)
    ensures Eval(g, n, map[], a) == Eval(g, n, map[], b)
  {
    TaintSound(g, n, Scope(ROOT, map[]), map[], map[], a, b);
    SafeStreamsEqual(g, Eval(g, n, map[], a), Eval(g, n, map[], b));
  }

  /** The decision the gate takes on a condition: its first output is exactly `true`. */
  predicate Admits(s: Stream) {
    s.values != [] && s.values[0] == Bool(true)
  }

  function Context(fields: map<string, Value>, identity: map<string, Value>): Value {
    Obj(fields[IDENTITY_FIELD := Obj(identity)])
  }

  /** What a fire presents of a token: the owner reference, or nothing. */
  function Reduced(claims: map<string, Value>): map<string, Value> {
    if OWNER_USER_ID_CLAIM in claims then map[OWNER_USER_ID_CLAIM := claims[OWNER_USER_ID_CLAIM]] else map[]
  }

  /** A fire decides an accepted condition exactly as the request with the full claims would. */
  lemma FireDecidesAsRequest(g: Engine, n: Node, fields: map<string, Value>, claims: map<string, Value>)
    requires AssertSafe(n)
    ensures Admits(Eval(g, n, map[], Context(fields, Reduced(claims)))) <==> Admits(Eval(g, n, map[], Context(fields, claims)))
  {
    AcceptedConditionIgnoresClaims(g, n, Context(fields, Reduced(claims)), Context(fields, claims));
  }

  // ---------- reads of the context itself ----------

  /** Every suffix names its field without evaluation, in either spelling. */
  ghost predicate Static(suffixes: seq<Suffix>) {
    forall i :: 0 <= i < |suffixes| ==> StaticName(suffixes[i]).Some?
  }

  function StaticRead(suffixes: seq<Suffix>): Node {
    Projection(0, Root(0), suffixes)
  }

  predicate Names(suffixes: seq<Suffix>, i: nat, name: string) {
    i < |suffixes| && StaticName(suffixes[i]) == Some(name)
  }

  /** The read starts outside the claims, or reaches them by the owner reference. */
  predicate AvoidsClaims(suffixes: seq<Suffix>) {
    suffixes != [] && (Names(suffixes, 0, IDENTITY_FIELD) ==> Names(suffixes, 1, OWNER_USER_ID_CLAIM))
  }

  ghost predicate IgnoresClaims(g: Engine, n: Node) {
    forall a, b :: SameContext(g, a, b) ==> Eval(g, n, map[], a) == Eval(g, n, map[], b)
  }

  /** Static reads of any length that ignore the claims are those that avoid them, and the rule accepts every one but
    * those that go on past `.identity.owner_user_id`. */
  lemma StaticReadExact(g: Engine, suffixes: seq<Suffix>)
    requires Static(suffixes)
    ensures IgnoresClaims(g, StaticRead(suffixes)) <==> AvoidsClaims(suffixes)
    ensures AssertSafe(StaticRead(suffixes)) <==>
              IgnoresClaims(g, StaticRead(suffixes)) && !(Names(suffixes, 0, IDENTITY_FIELD) && |suffixes| > 2)
  {
    StaticReadTaint(suffixes);
    if AvoidsClaims(suffixes) {
      forall a, b | SameContext(g, a, b)
        ensures Eval(g, StaticRead(suffixes), map[], a) == Eval(g, StaticRead(suffixes), map[], b)
      {
        AvoidingReadIgnoresClaims(g, suffixes, a, b);
      }
    } else {
      ClaimReadTells(g, suffixes);
    }
  }

  lemma StaticReadTaint(suffixes: seq<Suffix>)
    requires Static(suffixes)
    ensures AssertSafe(StaticRead(suffixes)) <==>
              AvoidsClaims(suffixes) && !(Names(suffixes, 0, IDENTITY_FIELD) && |suffixes| > 2)
  {
    var scope := Scope(ROOT, map[]);
    assert TaintOf(StaticRead(suffixes), scope) == SuffixTaint(ROOT, suffixes, scope);
    if suffixes != [] {
      KeylessStaySafe(suffixes[1..], scope);
    }
  }

  lemma AvoidingReadIgnoresClaims(g: Engine, suffixes: seq<Suffix>, a: Value, b: Value)
    requires Static(suffixes) && AvoidsClaims(suffixes) && SameContext(g, a, b)
    ensures Eval(g, StaticRead(suffixes), map[], a) == Eval(g, StaticRead(suffixes), map[], b)
  {
    if Names(suffixes, 0, IDENTITY_FIELD) {
      var scope, s, t, rest := Scope(ROOT, map[]), Stream([a], None), Stream([b], None), suffixes[1..];
      StaticSteps(g, s, suffixes, map[], a);
      StaticSteps(g, t, suffixes, map[], b);
      OwnerReference(g, s, t);
      KeylessStaySafe(suffixes[2..], scope);
      var owner := LookupAll(g, LookupAll(g, s, Str(IDENTITY_FIELD)), Str(OWNER_USER_ID_CLAIM));
      SuffixesSound(g, owner, owner, suffixes[2..], SAFE, scope, map[], map[], a, b);
      SafeStreamsEqual(g, ApplySuffixes(g, owner, suffixes[2..], map[], a), ApplySuffixes(g, owner, suffixes[2..], map[], b));
    } else {
      StaticReadTaint(suffixes);
      AcceptedConditionIgnoresClaims(g, StaticRead(suffixes), a, b);
    }
  }

  /** The first two suffixes of such a chain are lookups of their names. */
  lemma StaticSteps(g: Engine, s: Stream, suffixes: seq<Suffix>, env: Env, input: Value)
    requires Static(suffixes) && |suffixes| > 1
    ensures ApplySuffixes(g, s, suffixes, env, input) ==
              ApplySuffixes(g, LookupAll(g, LookupAll(g, s, Str(StaticName(suffixes[0]).value)),
                                         Str(StaticName(suffixes[1]).value)), suffixes[2..], env, input)
  {
    var s1 := LookupAll(g, s, Str(StaticName(suffixes[0]).value));
    StaticSuffix(g, s, suffixes[0], env, input);
    StaticSuffix(g, s1, suffixes[1], env, input);
    assert suffixes[1..][0] == suffixes[1] && suffixes[1..][1..] == suffixes[2..];
  }

  lemma LookupOne(g: Engine, v: Value, key: Value)
    ensures LookupAll(g, Stream([v], None), key) == One(Lookup(g, v, key))
  {
    assert [v][1..] == [];
    var s := One(Lookup(g, v, key));
    assert s.values + [] == s.values;
    assert LookupEach(g, [], key) == Stream([], None);
  }

  /** A value with `true` where the chain leads. */
  function Nest(suffixes: seq<Suffix>): Value
    requires Static(suffixes)
  {
    if suffixes == [] then Bool(true) else Obj(map[StaticName(suffixes[0]).value := Nest(suffixes[1..])])
  }

  lemma {:induction false} ReadsNest(g: Engine, suffixes: seq<Suffix>, env: Env, input: Value)
    requires Static(suffixes)
    ensures ApplySuffixes(g, Stream([Nest(suffixes)], None), suffixes, env, input) == Stream([Bool(true)], None)
    ensures ApplySuffixes(g, Stream([Null], None), suffixes, env, input) == Stream([Null], None)
  {
    if suffixes != [] {
      var key := Str(StaticName(suffixes[0]).value);
      StaticSuffix(g, Stream([Nest(suffixes)], None), suffixes[0], env, input);
      StaticSuffix(g, Stream([Null], None), suffixes[0], env, input);
      LookupOne(g, Nest(suffixes), key);
      LookupOne(g, Null, key);
      ReadsNest(g, suffixes[1..], env, input);
    }
  }

  lemma ClaimRead(g: Engine, suffixes: seq<Suffix>, claims: map<string, Value>)
    requires Static(suffixes) && |suffixes| > 1 && Names(suffixes, 0, IDENTITY_FIELD)
    requires var name := StaticName(suffixes[1]).value; claims == map[] || claims == map[name := Nest(suffixes[2..])]
    ensures Eval(g, StaticRead(suffixes), map[], Context(map[], claims)) ==
              Stream([if claims == map[] then Null else Bool(true)], None)
  {
    var a := Context(map[], claims);
    StaticSteps(g, Stream([a], None), suffixes, map[], a);
    LookupOne(g, a, Str(IDENTITY_FIELD));
    LookupOne(g, Obj(claims), Str(StaticName(suffixes[1]).value));
    ReadsNest(g, suffixes[2..], map[], a);
  }

  /** Any other read tells two contexts apart that differ in a claim. */
  lemma ClaimReadTells(g: Engine, suffixes: seq<Suffix>)
    requires Static(suffixes) && !AvoidsClaims(suffixes)
    ensures !IgnoresClaims(g, StaticRead(suffixes))
  {
    var n, none := StaticRead(suffixes), Context(map[], map[]);
    if |suffixes| > 1 {
      var name := StaticName(suffixes[1]).value;
      var claims := map[name := Nest(suffixes[2..])];
      assert name in claims && claims != map[];
      assert SameContext(g, Context(map[], claims), none);
      ClaimRead(g, suffixes, claims);
      ClaimRead(g, suffixes, map[]);
      assert Eval(g, n, map[], Context(map[], claims)) != Eval(g, n, map[], none);
    } else {
      var claims: map<string, Value> := map["" := Null];
      var some := Context(map[], claims);
      assert "" in claims && Obj(claims) != Obj(map[]);
      assert SameContext(g, some, none);
      WholeRead(g, suffixes, claims);
      WholeRead(g, suffixes, map[]);
      assert Eval(g, n, map[], some) != Eval(g, n, map[], none);
    }
  }

  lemma WholeRead(g: Engine, suffixes: seq<Suffix>, claims: map<string, Value>)
    requires suffixes == [] || (|suffixes| == 1 && Names(suffixes, 0, IDENTITY_FIELD))
    ensures var a := Context(map[], claims);
            Eval(g, StaticRead(suffixes), map[], a) == Stream([if suffixes == [] then a else Obj(claims)], None)
            && a.fields[IDENTITY_FIELD] == Obj(claims)
  {
    var a := Context(map[], claims);
    if suffixes != [] {
      StaticSuffix(g, Stream([a], None), suffixes[0], map[], a);
      LookupOne(g, a, Str(IDENTITY_FIELD));
      var s := Stream([Obj(claims)], None);
      assert ApplySuffix(g, Stream([a], None), suffixes[0], map[], a) == s;
      assert suffixes[1..] == [] && ApplySuffixes(g, s, [], map[], a) == s;
      assert Eval(g, Root(0), map[], a) == Stream([a], None);
    }
  }
}
