/** The tree of an allowlisted jq policy condition, one constructor per node class. */
module ConditionAst {
  import opened Wrappers

  datatype Suffix =
    | Field(position: nat, name: string)
    | Index(position: nat, key: Option<Node>)
    | Optional(position: nat)

  // Literals and object keys are not stored in the tree: the position a node
  // carries is what identifies them in the condition text.
  datatype Node =
    | Root(position: nat)
    | Constant(position: nat)
    | String(position: nat, value: string, interpolations: seq<Node>)
    | Variable(position: nat, name: string)
    | Projection(position: nat, source: Node, suffixes: seq<Suffix>)
    | Call(position: nat, name: string, arguments: seq<Node>)
    | Binary(position: nat, operator: string, left: Node, right: Node)
    | Negate(position: nat, operand: Node)
    | Bind(position: nat, source: Node, variable: string, body: Node)
    | Try(position: nat, body: Node, handler: Option<Node>)
    | ObjectConstruction(position: nat, values: seq<Node>)
    | ArrayConstruction(position: nat, element: Option<Node>)

  const IDENTITY_FIELD := "identity"
  const OWNER_USER_ID_CLAIM := "owner_user_id"

  /** Whether the allowlist has the builtin `name` at `arity`. */
  predicate Allowlisted(name: string, arity: nat) {
    match name
    case "not" | "length" | "ascii_downcase" => arity == 0
    case "startswith" | "endswith" | "contains" | "map" => arity == 1
    case "test" | "IN" => arity == 1 || arity == 2
    case "any" | "all" => arity <= 2
    case _ => false
  }

  /** The field a suffix names without evaluation, if it does. */
  function StaticName(suffix: Suffix): Option<string> {
    match suffix
    case Field(_, name) => Some(name)
    case Index(_, Some(String(_, value, interpolations))) =>
      if interpolations == [] then Some(value) else None
    case _ => None
  }

  const BUILTINS: set<(string, nat)> :=
    {("not", 0), ("length", 0), ("ascii_downcase", 0), ("startswith", 1), ("endswith", 1), ("contains", 1), ("map", 1),
     ("test", 1), ("test", 2), ("IN", 1), ("IN", 2), ("any", 0), ("any", 1), ("any", 2), ("all", 0), ("all", 1), ("all", 2)}

  /** The allowlist, name by name and arity by arity. */
  lemma BuiltinsListed(name: string, arity: nat)
    ensures Allowlisted(name, arity) <==> (name, arity) in BUILTINS
  {
  }
}
