/**
 A reference semantics for the condition grammar: an expression maps one input to a
 stream of outputs that may end in an error. Whatever the condition text or the jq
 library decides beyond that (literals, object keys, arithmetic, string functions)
 is a field of `Engine`, a deterministic function of its arguments.
 */
module JqEvaluation {
  import opened Wrappers
  import opened ConditionAst

  datatype Value =
    | Null
    | Bool(b: bool)
    | Num(n: real)
    | Str(s: string)
    | Arr(items: seq<Value>)
    | Obj(fields: map<string, Value>)

  datatype Outcome = Yield(value: Value) | Raise(error: Value)

  datatype Stream = Stream(values: seq<Value>, error: Option<Value>)

  /** The cartesian product of several streams, one row per combination. */
  datatype Rows = Rows(rows: seq<seq<Value>>, error: Option<Value>)

  datatype Engine = Engine(
    literal: nat -> Value,
    keys: nat -> seq<string>,
    interpolate: (nat, seq<Value>) -> Value,
    operate: (string, Value, Value) -> Outcome,
    negate: Value -> Outcome,
    index: (Value, Value) -> Outcome,
    fieldOrder: map<string, Value> -> seq<Value>,
    notIterable: Value -> Value,
    builtin: (string, Value, seq<Value>) -> Outcome,
    unbound: Value)

  type Env = map<string, Value>

  predicate Truthy(v: Value) {
    v != Null && v != Bool(false)
  }

  function Get(fields: map<string, Value>, name: string): Value {
    if name in fields then fields[name] else Null
  }

  function Lookup(g: Engine, v: Value, key: Value): Outcome {
    match (v, key)
    case (Obj(fields), Str(name)) => Yield(Get(fields, name))
    case (Null, Str(_)) => Yield(Null)
    case _ => g.index(v, key)
  }

  function One(o: Outcome): Stream {
    match o
    case Yield(v) => Stream([v], None)
    case Raise(e) => Stream([], Some(e))
  }

  /** `s` followed by `t`, which is never reached once `s` has raised. */
  function Chain(s: Stream, t: Stream): Stream {
    if s.error.Some? then s else Stream(s.values + t.values, t.error)
  }

  function LookupEach(g: Engine, values: seq<Value>, key: Value): Stream {
    if values == [] then Stream([], None)
    else Chain(One(Lookup(g, values[0], key)), LookupEach(g, values[1..], key))
  }

  function LookupAll(g: Engine, s: Stream, key: Value): Stream {
    Chain(LookupEach(g, s.values, key), Stream([], s.error))
  }

  /** `t[k]` runs `t` afresh for each value of `k`. */
  function LookupCross(g: Engine, s: Stream, keys: seq<Value>): Stream {
    if keys == [] then Stream([], None)
    else Chain(LookupAll(g, s, keys[0]), LookupCross(g, s, keys[1..]))
  }

  function Iterate(g: Engine, v: Value): Stream {
    match v
    case Arr(items) => Stream(items, None)
    case Obj(fields) => Stream(g.fieldOrder(fields), None)
    case _ => Stream([], Some(g.notIterable(v)))
  }

  function IterateEach(g: Engine, values: seq<Value>): Stream {
    if values == [] then Stream([], None)
    else Chain(Iterate(g, values[0]), IterateEach(g, values[1..]))
  }

  function OperateEach(g: Engine, operator: string, lefts: seq<Value>, right: Value): Stream {
    if lefts == [] then Stream([], None)
    else
      var head := if operator == "==" then Yield(Bool(lefts[0] == right))
                  else if operator == "!=" then Yield(Bool(lefts[0] != right))
                  else g.operate(operator, lefts[0], right);
      Chain(One(head), OperateEach(g, operator, lefts[1..], right))
  }

  /** A value operator: the right operand is the outer loop. */
  function OperateCross(g: Engine, operator: string, s: Stream, rights: seq<Value>): Stream {
    if rights == [] then Stream([], None)
    else
      var head := Chain(OperateEach(g, operator, s.values, rights[0]), Stream([], s.error));
      Chain(head, OperateCross(g, operator, s, rights[1..]))
  }

  function Logical(operator: string, lefts: seq<Value>, right: Stream): Stream {
    if lefts == [] then Stream([], None)
    else
      var head := if Truthy(lefts[0]) == (operator == "or")
                  then Stream([Bool(Truthy(lefts[0]))], None)
                  else Stream(seq(|right.values|, i requires 0 <= i < |right.values| => Bool(Truthy(right.values[i]))), right.error);
      Chain(head, Logical(operator, lefts[1..], right))
  }

  function NegateEach(g: Engine, values: seq<Value>): Stream {
    if values == [] then Stream([], None)
    else Chain(One(g.negate(values[0])), NegateEach(g, values[1..]))
  }

  /** The truthy outputs of `values`, in order. */
  function TruthyOf(values: seq<Value>): seq<Value> {
    if values == [] then []
    else if Truthy(values[0]) then [values[0]] + TruthyOf(values[1..])
    else TruthyOf(values[1..])
  }

  /** `left // right`: errors of `left` are suppressed. */
  function Alternative(left: Stream, right: Stream): Stream {
    var kept := TruthyOf(left.values);
    if kept == [] then right else Stream(kept, None)
  }

  /** Stops at the first output whose truth is `stop`, before any later error. */
  function ShortCircuit(s: Stream, stop: bool): Stream {
    if exists i :: 0 <= i < |s.values| && Truthy(s.values[i]) == stop then Stream([Bool(stop)], None)
    else if s.error.Some? then Stream([], s.error)
    else Stream([Bool(!stop)], None)
  }

  function Prefixed(v: Value, rows: seq<seq<Value>>): seq<seq<Value>> {
    seq(|rows|, i requires 0 <= i < |rows| => [v] + rows[i])
  }

  function Cross(heads: seq<Value>, tail: Rows): Rows {
    if heads == [] then Rows([], None)
    else if tail.error.Some? then Rows(Prefixed(heads[0], tail.rows), tail.error)
    else
      var rest := Cross(heads[1..], tail);
      Rows(Prefixed(heads[0], tail.rows) + rest.rows, rest.error)
  }

  function CrossStream(head: Stream, tail: Rows): Rows {
    var r := Cross(head.values, tail);
    if r.error.Some? then r else Rows(r.rows, head.error)
  }

  function InterpolateRows(g: Engine, position: nat, r: Rows): Stream {
    Stream(seq(|r.rows|, i requires 0 <= i < |r.rows| => g.interpolate(position, r.rows[i])), r.error)
  }

  function ObjectOf(keys: seq<string>, row: seq<Value>): map<string, Value> {
    if keys == [] || row == [] then map[]
    else map[keys[0] := row[0]] + ObjectOf(keys[1..], row[1..])
  }

  function ObjectRows(keys: seq<string>, r: Rows): Stream {
    Stream(seq(|r.rows|, i requires 0 <= i < |r.rows| => Obj(ObjectOf(keys, r.rows[i]))), r.error)
  }

  function BuiltinRows(g: Engine, name: string, input: Value, rows: seq<seq<Value>>, error: Option<Value>): Stream {
    if rows == [] then Stream([], error)
    else Chain(One(g.builtin(name, input, rows[0])), BuiltinRows(g, name, input, rows[1..], error))
  }

  function Collect(s: Stream): Stream {
    if s.error.Some? then Stream([], s.error) else Stream([Arr(s.values)], None)
  }

  function SameAs(v: Value, s: Stream): Stream {
    Stream(seq(|s.values|, i requires 0 <= i < |s.values| => Bool(s.values[i] == v)), s.error)
  }

  // ---------- the evaluator ----------

  function Eval(g: Engine, n: Node, env: Env, input: Value): Stream
    decreases n, 0
  {
    match n
    case Root(_) => Stream([input], None)
    case Constant(position) => Stream([g.literal(position)], None)
    case String(position, value, interpolations) =>
      if interpolations == [] then Stream([Str(value)], None)
      else InterpolateRows(g, position, EvalRows(g, interpolations, env, input))
    case Variable(_, name) =>
      if name in env then Stream([env[name]], None) else Stream([], Some(g.unbound))
    case Projection(_, source, suffixes) =>
      ApplySuffixes(g, Eval(g, source, env, input), suffixes, env, input)
    case Call(_, name, arguments) => EvalCall(g, n, env, input)
    case Binary(_, operator, left, right) =>
      if operator == "|" then
        var s := Eval(g, left, env, input);
        Chain(EvalEach(g, right, env, s.values), Stream([], s.error))
      else if operator == "," then Chain(Eval(g, left, env, input), Eval(g, right, env, input))
      else if operator == "//" then Alternative(Eval(g, left, env, input), Eval(g, right, env, input))
      else if operator == "and" || operator == "or" then
        var s := Eval(g, left, env, input);
        Chain(Logical(operator, s.values, Eval(g, right, env, input)), Stream([], s.error))
      else
        var t := Eval(g, right, env, input);
        Chain(OperateCross(g, operator, Eval(g, left, env, input), t.values), Stream([], t.error))
    case Negate(_, operand) =>
      var s := Eval(g, operand, env, input);
      Chain(NegateEach(g, s.values), Stream([], s.error))
    case Bind(_, source, variable, body) =>
      var s := Eval(g, source, env, input);
      Chain(EvalBound(g, body, variable, env, input, s.values), Stream([], s.error))
    case Try(_, body, handler) =>
      var s := Eval(g, body, env, input);
      if s.error.None? then s
      else if handler.None? then Stream(s.values, None)
      else Chain(Stream(s.values, None), Eval(g, handler.value, env, s.error.value))
    case ObjectConstruction(position, values) =>
      ObjectRows(g.keys(position), EvalRows(g, values, env, input))
    case ArrayConstruction(_, element) =>
      if element.None? then Stream([Arr([])], None) else Collect(Eval(g, element.value, env, input))
  }

  function EvalRows(g: Engine, nodes: seq<Node>, env: Env, input: Value): Rows
    decreases nodes, 0
  {
    if nodes == [] then Rows([[]], None)
    else CrossStream(Eval(g, nodes[0], env, input), EvalRows(g, nodes[1..], env, input))
  }

  /** `n` run on each input in turn. */
  function EvalEach(g: Engine, n: Node, env: Env, inputs: seq<Value>): Stream
    decreases n, 1 + |inputs|
  {
    if inputs == [] then Stream([], None)
    else Chain(Eval(g, n, env, inputs[0]), EvalEach(g, n, env, inputs[1..]))
  }

  function EvalBound(g: Engine, n: Node, variable: string, env: Env, input: Value, values: seq<Value>): Stream
    decreases n, 1 + |values|
  {
    if values == [] then Stream([], None)
    else Chain(Eval(g, n, env[variable := values[0]], input), EvalBound(g, n, variable, env, input, values[1..]))
  }

  function ApplySuffixes(g: Engine, s: Stream, suffixes: seq<Suffix>, env: Env, input: Value): Stream
    decreases suffixes, 0
  {
    if suffixes == [] then s
    else ApplySuffixes(g, ApplySuffix(g, s, suffixes[0], env, input), suffixes[1..], env, input)
  }

  /** One suffix over the stream of the term so far; `?` suppresses that term's error. */
  function ApplySuffix(g: Engine, s: Stream, suffix: Suffix, env: Env, input: Value): Stream
    decreases suffix, 0
  {
    match suffix
    case Field(_, name) => LookupAll(g, s, Str(name))
    case Index(_, None) => Chain(IterateEach(g, s.values), Stream([], s.error))
    case Index(_, Some(key)) =>
      var keys := Eval(g, key, env, input);
      Chain(LookupCross(g, s, keys.values), Stream([], keys.error))
    case Optional(_) => Stream(s.values, None)
  }

  /** Filter arguments run on the call's input or on each element of it. */
  function EvalCall(g: Engine, n: Node, env: Env, input: Value): Stream
    requires n.Call?
    decreases n.arguments, 2
  {
    var arguments := n.arguments;
    if n.name == "not" then Stream([Bool(!Truthy(input))], None)
    else if n.name == "map" && |arguments| == 1 then
      var s := Iterate(g, input);
      Collect(Chain(EvalEach(g, arguments[0], env, s.values), Stream([], s.error)))
    else if n.name == "any" || n.name == "all" then
      var s := if |arguments| == 2 then Eval(g, arguments[0], env, input) else Iterate(g, input);
      var t := if arguments == [] then s
               else Chain(EvalEach(g, arguments[|arguments| - 1], env, s.values), Stream([], s.error));
      ShortCircuit(t, n.name == "any")
    else if n.name == "IN" && |arguments| == 1 then
      ShortCircuit(SameAs(input, Eval(g, arguments[0], env, input)), true)
    else if n.name == "IN" && |arguments| == 2 then
      var t := Eval(g, arguments[1], env, input);
      var compared := OperateCross(g, "==", Eval(g, arguments[0], env, input), t.values);
      ShortCircuit(Chain(compared, Stream([], t.error)), true)
    else
      var r := EvalRows(g, arguments, env, input);
      BuiltinRows(g, n.name, input, r.rows, r.error)
  }
}
